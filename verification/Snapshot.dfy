/** Snapshots as flat maps of names, their symbolic links, and the file trees they stand for. The
    lexical link check is compared with pathname resolution as the operating system does it
    (section 4.13, Pathname Resolution, of POSIX.1-2017 Base Definitions). */
module Snapshot {
  import opened Models
  import opened Paths

  // ---- the file tree of a snapshot ----

  datatype Object = Directory | Regular(data: seq<bv8>, executable: bool) | Symlink(target: string) | Special

  /** A file tree under its root, which is the empty path. */
  type FileSystem = map<Path, Object>

  function ObjectOf(entry: Entry): Object {
    match entry
    case File(data, executable) => Regular(data, executable)
    case Link(target) => Symlink(target)
  }

  function Directories(entries: Tree): (d: set<Path>)
    ensures forall p :: p in d <==> exists n :: n in entries && p < n
  {
    assert forall n, p :: n in entries && p < n ==> p == n[..|p|];
    set n, k | n in entries.Keys && 0 <= k < |n| :: n[..k]
  }

  /** The tree that holds exactly these entries and their parent directories. */
  function FileSystemOf(entries: Tree): FileSystem {
    map p | p in {[]} + Directories(entries) + entries.Keys ::
      if p in entries && p !in Directories(entries) then ObjectOf(entries[p]) else Directory
  }

  // ---- pathname resolution ----

  datatype Resolution = Found(path: Path) | Outside | Missing | NotDirectory | TooManyLinks

  /** Resolves the components one by one from a directory, following at most `links` links. */
  function Resolve(fs: FileSystem, at: Path, components: seq<string>, links: nat): Resolution
    decreases links, |components|
  {
    if components == [] then Found(at)
    else if at !in fs || !fs[at].Directory? then NotDirectory
    else
      var part, rest := components[0], components[1..];
      if part == "" || part == "." then Resolve(fs, at, rest, links)
      else if part == ".." then if at == [] then Outside else Resolve(fs, at[..|at| - 1], rest, links)
      else
        var next := at + [part];
        if next !in fs then Missing
        else if !fs[next].Symlink? then Resolve(fs, next, rest, links)
        else if links == 0 then TooManyLinks
        else if |fs[next].target| > 0 && fs[next].target[0] == '/' then Outside
        else Resolve(fs, at, Split(fs[next].target) + rest, links - 1)
  }

  /** Resolution of the link at a name, following up to `links` links beside the link itself. */
  function ResolveLink(fs: FileSystem, name: Path, target: string, links: nat): Resolution
    requires name != []
  {
    if |target| > 0 && target[0] == '/' then Outside
    else Resolve(fs, name[..|name| - 1], Split(target), links)
  }

  predicate IsFile(fs: FileSystem, r: Resolution) {
    r.Found? && r.path in fs && fs[r.path].Regular?
  }

  // ---- the lexical check ----

  /** The walk over the components of a target: the text is pushed and popped, and every step but
      the last must stand on a snapshot directory. */
  function Walk(directories: set<Path>, parts: Path, components: seq<string>): Option<Path>
    decreases |components|
  {
    if components == [] then Some(parts)
    else
      var next := Step(parts, components[0]);
      if next.None? || (|components| > 1 && next.value !in directories) then None
      else Walk(directories, next.value, components[1..])
  }

  function Step(parts: Path, part: string): Option<Path> {
    if part == ".." then if parts == [] then None else Some(parts[..|parts| - 1])
    else if part == "" || part == "." then Some(parts)
    else if part in PROTECTED then None
    else Some(parts + [part])
  }

  predicate TargetOk(entries: Tree, name: Path, target: string)
    requires name != []
  {
    && target != "" && '\0' !in target && target[0] != '/'
    && var end := Walk(Directories(entries), name[..|name| - 1], Split(target));
    && end.Some? && end.value in entries && entries[end.value].File?
  }

  predicate EntryOk(entries: Tree, name: Path)
    requires name in entries && name != []
  {
    && name !in Directories(entries)
    && (entries[name].Link? ==> TargetOk(entries, name, entries[name].target))
  }

  /** What the check demands of one namespace. */
  predicate NamespaceOk(entries: Tree) {
    forall n :: n in entries ==> n != [] && EntryOk(entries, n)
  }

  predicate NamesAreSafe(entries: Tree) {
    forall n :: n in entries ==> SafeParts(n)
  }

  /** No entry is also a parent directory. */
  predicate IsFlat(entries: Tree) {
    forall n :: n in entries ==> n !in Directories(entries)
  }

  lemma SafePrefix(entries: Tree, p: Path)
    requires NamesAreSafe(entries) && (p in Directories(entries) || p in entries)
    ensures forall c :: c in p ==> SafePart(c)
  {
    if p !in entries {
      var n :| n in entries && p < n;
      assert forall c :: c in p ==> c in n;
    }
  }

  /** The root and every parent of a directory are directories. */
  lemma ParentIsDirectory(entries: Tree, p: Path)
    requires p in Directories(entries) && p != []
    ensures p[..|p| - 1] in Directories(entries)
  {
    var n :| n in entries && p < n;
    assert p[..|p| - 1] < n;
  }

  lemma DirectoryInTree(entries: Tree, p: Path)
    requires p in Directories(entries)
    ensures p in FileSystemOf(entries) && FileSystemOf(entries)[p] == Directory
  {
  }

  ghost predicate WalkEnds(entries: Tree, at: Path, components: seq<string>, end: Path) {
    Walk(Directories(entries), at, components) == Some(end) && end in entries && entries[end].File?
  }

  ghost predicate ResolutionEnds(entries: Tree, at: Path, components: seq<string>, end: Path) {
    var fs := FileSystemOf(entries);
    Resolve(fs, at, components, 0) == Found(end) && end in fs && fs[end].Regular?
  }

  /** The last component: text and tree name the same file, and neither accepts a second link. */
  lemma LastStep(entries: Tree, at: Path, part: string, end: Path)
    requires NamesAreSafe(entries) && IsFlat(entries) && at in Directories(entries)
    requires !(part in {"", ".", ".."})
    ensures WalkEnds(entries, at, [part], end) <==> ResolutionEnds(entries, at, [part], end)
  {
    DirectoryInTree(entries, at);
    var next := at + [part];
    assert part in next;
    if next in FileSystemOf(entries) {
      SafePrefix(entries, next);
    }
    var components, fs := [part], FileSystemOf(entries);
    assert components[0] == part && components[1..] == [];
    assert Walk(Directories(entries), at, components) == Step(at, part);
    assert Resolve(fs, at, components, 0)
        == if next !in fs then Missing else if fs[next].Symlink? then TooManyLinks else Found(next);
  }

  /** The walk and the resolution agree, from any directory and along any components. */
  lemma {:induction false} WalkIsResolution(entries: Tree, at: Path, components: seq<string>, end: Path)
    requires NamesAreSafe(entries) && IsFlat(entries) && at in Directories(entries)
    ensures WalkEnds(entries, at, components, end) <==> ResolutionEnds(entries, at, components, end)
    decreases |components|
  {
    DirectoryInTree(entries, at);
    if components != [] {
      var part, rest := components[0], components[1..];
      if part == "" || part == "." {
        WalkIsResolution(entries, at, rest, end);
      } else if part == ".." {
        if at != [] {
          ParentIsDirectory(entries, at);
          WalkIsResolution(entries, at[..|at| - 1], rest, end);
        }
      } else if rest == [] {
        assert components == [part];
        LastStep(entries, at, part, end);
      } else {
        MiddleStep(entries, at, part, rest);
        if at + [part] in Directories(entries) {
          WalkIsResolution(entries, at + [part], rest, end);
        }
      }
    }
  }

  /** A component that is not the last must be a real directory for both. */
  lemma MiddleStep(entries: Tree, at: Path, part: string, rest: seq<string>)
    requires NamesAreSafe(entries) && IsFlat(entries) && at in Directories(entries)
    requires !(part in {"", ".", ".."}) && rest != []
    ensures var next, all := at + [part], [part] + rest;
            var fs := FileSystemOf(entries);
            if next in Directories(entries) then
              && Walk(Directories(entries), at, all) == Walk(Directories(entries), next, rest)
              && Resolve(fs, at, all, 0) == Resolve(fs, next, rest, 0)
            else
              Walk(Directories(entries), at, all).None? && !Resolve(fs, at, all, 0).Found?
  {
    DirectoryInTree(entries, at);
    var next, all := at + [part], [part] + rest;
    assert all[0] == part && all[1..] == rest;
    assert part in next;
    if next in FileSystemOf(entries) {
      SafePrefix(entries, next);
    }
  }

  /** What resolves holds no NUL: names do not. */
  lemma {:induction false} ResolvedPartsAreClean(entries: Tree, at: Path, components: seq<string>)
    requires NamesAreSafe(entries)
    requires Resolve(FileSystemOf(entries), at, components, 0).Found?
    ensures forall c :: c in components ==> '\0' !in c
    decreases |components|
  {
    if components != [] {
      var part, rest := components[0], components[1..];
      if part == "" || part == "." {
        ResolvedPartsAreClean(entries, at, rest);
      } else if part == ".." {
        ResolvedPartsAreClean(entries, at[..|at| - 1], rest);
      } else {
        var next := at + [part];
        assert part in next;
        SafePrefix(entries, next);
        ResolvedPartsAreClean(entries, next, rest);
      }
    }
  }

  /** The check is exact: it accepts a link precisely when the link, resolved in the real tree,
      ends inside the root at a regular file without meeting a second link. */
  lemma TargetOkIsResolution(entries: Tree, name: Path, target: string)
    requires NamesAreSafe(entries) && IsFlat(entries) && name in entries
    ensures TargetOk(entries, name, target)
       <==> IsFile(FileSystemOf(entries), ResolveLink(FileSystemOf(entries), name, target, 0))
    ensures TargetOk(entries, name, target) ==>
              ResolveLink(FileSystemOf(entries), name, target, 0)
              == Found(Walk(Directories(entries), name[..|name| - 1], Split(target)).value)
  {
    var fs, at, components := FileSystemOf(entries), name[..|name| - 1], Split(target);
    assert at < name;
    DirectoryInTree(entries, at);
    if TargetOk(entries, name, target) {
      WalkIsResolution(entries, at, components, Walk(Directories(entries), at, components).value);
    }
    var r := ResolveLink(fs, name, target, 0);
    if IsFile(fs, r) {
      WalkIsResolution(entries, at, components, r.path);
      ResolvedPartsAreClean(entries, at, components);
      if '\0' in target {
        JoinSplit(target);
        CharacterIsInAPart(components, '\0');
      }
    }
  }

  /** A resolution that meets no link is the same whatever number of links is allowed. */
  lemma {:induction false} NoSecondLink(fs: FileSystem, at: Path, components: seq<string>, links: nat)
    requires Resolve(fs, at, components, 0).Found?
    ensures Resolve(fs, at, components, links) == Resolve(fs, at, components, 0)
    decreases |components|
  {
    if components != [] {
      var part, rest := components[0], components[1..];
      if part == "" || part == "." {
        NoSecondLink(fs, at, rest, links);
      } else if part == ".." {
        NoSecondLink(fs, at[..|at| - 1], rest, links);
      } else {
        NoSecondLink(fs, at + [part], rest, links);
      }
    }
  }

  /** A tree in which every link resolves, with any number of links allowed, to a regular file. */
  ghost predicate LinksResolve(fs: FileSystem) {
    forall n, links: nat :: n in fs && n != [] && fs[n].Symlink? ==>
      IsFile(fs, ResolveLink(fs, n, fs[n].target, links)) && IsFile(fs, ResolveLink(fs, n, fs[n].target, 0))
  }

  /** One namespace is accepted exactly when its entries form a tree in which every link resolves. */
  lemma NamespaceMeaning(entries: Tree)
    requires NamesAreSafe(entries)
    ensures NamespaceOk(entries) <==> IsFlat(entries) && LinksResolve(FileSystemOf(entries))
  {
    var fs := FileSystemOf(entries);
    if NamespaceOk(entries) {
      forall n, links: nat | n in fs && n != [] && fs[n].Symlink?
        ensures IsFile(fs, ResolveLink(fs, n, fs[n].target, links))
        ensures IsFile(fs, ResolveLink(fs, n, fs[n].target, 0))
      {
        assert EntryOk(entries, n);
        TargetOkIsResolution(entries, n, fs[n].target);
        NoSecondLink(fs, n[..|n| - 1], Split(fs[n].target), links);
      }
    }
    if IsFlat(entries) && LinksResolve(fs) {
      forall n | n in entries ensures n != [] && EntryOk(entries, n) {
        if entries[n].Link? {
          assert n in fs && fs[n] == ObjectOf(entries[n]);
          TargetOkIsResolution(entries, n, entries[n].target);
        }
      }
    }
  }
}
