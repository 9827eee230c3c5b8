/** Snapshots on the move: a workspace is packed as archive members, an archive is unpacked into an
    empty directory, and a stored manifest is materialized and captured again. */
module Archive {
  import opened Models
  import opened Paths
  import opened Snapshot
  import opened Validation
  import opened Capture

  // ---- writing a whole tree ----

  /** With the entries of one tree nothing is ever in the way of the next entry ... */
  lemma NothingInTheWay(written: Tree, name: Path, entry: Entry)
    requires IsFlat(written[name := entry]) && name !in written && name != []
    ensures !InTheWay(FileSystemOf(written), name)
  {
    var after := written[name := entry];
    assert name in after && forall n :: n in written ==> n in after;
    forall k | 0 <= k < |name| && name[..k] in FileSystemOf(written)
      ensures FileSystemOf(written)[name[..k]].Directory?
    {
      assert name[..k] < name;
      assert name[..k] in Directories(after);
    }
    assert name !in Directories(after);
    forall n | n in written ensures !(name < n) {
      assert name < n ==> name in Directories(after);
    }
  }

  /** ... and placing it gives the tree of one more entry. */
  lemma PlacedIsTree(written: Tree, name: Path, entry: Entry)
    requires IsFlat(written[name := entry]) && name !in written && name != []
    ensures Placed(FileSystemOf(written), name, ObjectOf(entry)) == FileSystemOf(written[name := entry])
  {
    NothingInTheWay(written, name, entry);
    var after := written[name := entry];
    var placed := Placed(FileSystemOf(written), name, ObjectOf(entry));
    forall p
      ensures p in placed <==> p in FileSystemOf(after)
      ensures p in placed ==> placed[p] == FileSystemOf(after)[p]
    {
      PlacedAt(written, name, entry, p);
    }
  }

  lemma PlacedAt(written: Tree, name: Path, entry: Entry, p: Path)
    requires IsFlat(written[name := entry]) && name !in written && name != []
    requires !InTheWay(FileSystemOf(written), name)
    ensures var placed, after := Placed(FileSystemOf(written), name, ObjectOf(entry)), written[name := entry];
            && (p in placed <==> p in FileSystemOf(after))
            && (p in placed ==> placed[p] == FileSystemOf(after)[p])
  {
    var after := written[name := entry];
    DirectoriesGrow(written, name, entry, p);
    assert p < name ==> p == name[..|p|];
    assert name == name[..|name|] && name in after;
    assert p in written ==> p in after && p !in Directories(after);
  }

  lemma DirectoriesGrow(written: Tree, name: Path, entry: Entry, p: Path)
    ensures p in Directories(written[name := entry]) <==> p in Directories(written - {name}) || p < name
  {
    var after := written[name := entry];
    if p < name {
      assert name in after;
    }
    if p in Directories(written - {name}) {
      var n :| n in written - {name} && p < n;
      assert n in after;
    }
    if p in Directories(after) && !(p < name) {
      var n :| n in after && p < n;
      assert n in written - {name};
    }
  }

  function Only(entries: Tree, names: set<Path>): Tree {
    map n | n in entries && n in names :: entries[n]
  }

  lemma OneMoreOf(entries: Tree, names: set<Path>, name: Path)
    requires name in entries && IsFlat(entries)
    ensures Only(entries, names)[name := entries[name]] == Only(entries, names + {name})
    ensures IsFlat(Only(entries, names + {name}))
  {
    FlatPart(Only(entries, names + {name}), entries);
  }

  lemma FlatPart(part: Tree, entries: Tree)
    requires PartOf(part, entries) && IsFlat(entries)
    ensures IsFlat(part)
  {
    forall n | n in part ensures n !in Directories(part) {
      assert n in Directories(part) ==> n in Directories(entries);
    }
  }

  method WriteOne(fs: FileSystem, entries: Tree, ghost done: set<Path>, name: Path) returns (now: FileSystem)
    requires IsFlat(entries) && name in entries && name !in done && name != []
    requires fs == FileSystemOf(Only(entries, done))
    ensures now == FileSystemOf(Only(entries, done + {name}))
  {
    OneMoreOf(entries, done, name);
    NothingInTheWay(Only(entries, done), name, entries[name]);
    PlacedIsTree(Only(entries, done), name, entries[name]);
    var placed := Place(fs, name, ObjectOf(entries[name]));
    now := placed.value;
  }

  /** The entries of one kind, written one after the other. */
  method WriteSome(fs: FileSystem, entries: Tree, chosen: set<Path>, ghost written: set<Path>)
    returns (r: Result<FileSystem>)
    requires IsFlat(entries) && chosen <= entries.Keys && chosen !! written
    requires (forall n :: n in entries ==> n != []) && fs == FileSystemOf(Only(entries, written))
    ensures r == Ok(FileSystemOf(Only(entries, written + chosen)))
  {
    var now, remaining := fs, chosen;
    ghost var done := written;
    while remaining != {}
      invariant remaining <= chosen && done !! remaining
      invariant forall n :: n in written + chosen <==> n in done || n in remaining
      invariant now == FileSystemOf(Only(entries, done))
      decreases |remaining|
    {
      var name :| name in remaining;
      now := WriteOne(now, entries, done, name);
      remaining, done := remaining - {name}, done + {name};
    }
    assert done == written + chosen;
    return Ok(now);
  }

  /** Files first, then links: no write ever goes through a link, and the result is exactly the tree. */
  method WriteTree(entries: Tree) returns (r: Result<FileSystem>)
    requires IsFlat(entries) && forall n :: n in entries ==> n != []
    ensures r == Ok(FileSystemOf(entries))
  {
    var root: FileSystem := map[[] := Directory];
    var files := set n | n in entries.Keys && entries[n].File?;
    var links := entries.Keys - files;
    assert Only(entries, {}) == map[] && {} + files == files && files + links == entries.Keys;
    assert Only(entries, entries.Keys) == entries;
    r := WriteSome(root, entries, files, {});
    r := WriteSome(r.value, entries, links, files);
  }

  // ---- what reading sees of a written tree ----

  lemma ReadsBackAt(entries: Tree, name: Path)
    requires IsFlat(entries) && name in entries && name != []
    ensures var fs := FileSystemOf(entries);
            Seen(fs, name) && Look(fs, name, 0) == There(ObjectOf(entries[name]))
    ensures EntryOf(ObjectOf(entries[name])) == entries[name]
  {
    var fs := FileSystemOf(entries);
    forall k | 1 <= k <= |name| - 1 ensures name[..k] in fs && fs[name[..k]].Directory? {
      assert name[..k] < name;
      DirectoryInTree(entries, name[..k]);
    }
    LookMeaning(fs, name, 0);
  }

  lemma ListedNames(entries: Tree, inputs: bool)
    requires IsFlat(entries) && forall n :: n in entries ==> NameOk(n, inputs)
    ensures Listing(FileSystemOf(entries), inputs) == entries.Keys
  {
    forall n ensures n in Listing(FileSystemOf(entries), inputs) <==> n in entries.Keys {
      if n in entries {
        NothingExcluded(n, inputs);
      }
    }
  }

  lemma NothingExcluded(name: Path, inputs: bool)
    requires NameOk(name, inputs)
    ensures name != [] && !Excluded(name, inputs)
  {
    forall i | 0 <= i < |name| ensures !ExcludedAt(name, i, inputs) {
      NotExcluded(name, i, inputs);
    }
  }

  lemma DigitsAreNotProtected(part: string)
    requires IsDigits(part)
    ensures part !in PROTECTED
  {
    assert part[0] in part;
    assert forall p :: p in PROTECTED ==> p[0] == '.';
  }

  lemma NotExcluded(name: Path, i: nat, inputs: bool)
    requires NameOk(name, inputs) && i < |name|
    ensures !ExcludedAt(name, i, inputs)
  {
    var scope, relative := ScopeOf(name, inputs), Relative(name, inputs);
    if i >= |scope| {
      assert name[i] == relative[i - |scope|] && name[i] in relative;
    } else if i == 1 {
      DigitsAreNotProtected(name[1]);
    }
  }

  lemma CapturedBack(entries: Tree)
    requires IsFlat(entries) && forall n :: n in entries ==> n != []
    ensures Captured(FileSystemOf(entries), entries.Keys) == entries
    ensures forall n :: n in entries ==> Seen(FileSystemOf(entries), n)
  {
    var fs := FileSystemOf(entries);
    forall n | n in entries ensures Seen(fs, n) && EntryOf(Look(fs, n, 0).seen) == entries[n] {
      ReadsBackAt(entries, n);
    }
  }

  /** Capturing a written tree gives back its entries, whenever they are within the limits. */
  lemma ReadsBack(entries: Tree, limit: nat, inputs: bool)
    requires ValidEntries(entries, inputs)
    ensures var fs := FileSystemOf(entries);
            && Captured(fs, Listing(fs, inputs)) == entries
            && (Reads(fs, Listing(fs, inputs), limit, inputs) <==> Within(entries, limit))
  {
    ValidIsFlat(entries, inputs);
    ListedNames(entries, inputs);
    assert forall n :: n in entries ==> NameOk(n, inputs);
    CapturedBack(entries);
  }

  // ---- the candidate store ----

  /** `materialize` of a manifest into a directory that may hold something, then its capture. It
      succeeds exactly for valid manifests within the limits: what was written is what is captured. */
  method Materialize(manifest: Tree, occupied: bool, limit: nat) returns (r: Result<FileSystem>)
    ensures r.Ok? <==> !occupied && ValidEntries(manifest, false) && Within(manifest, limit)
    ensures r.Ok? ==> r.value == FileSystemOf(manifest)
                      && Captured(r.value, Listing(r.value, false)) == manifest
  {
    var fault := ValidateEntries(manifest, false);
    if fault.Some? { return Err(Rejected(fault.value)); }
    var fits := FitsManifest(manifest, limit);
    if !fits { return Err(TooLarge); }
    if occupied { return Err(Occupied); }
    ValidIsFlat(manifest, false);
    r := WriteTree(manifest);
    ReadsBack(manifest, limit, false);
    var captured := ReadEntries(r.value, Listing(r.value, false), limit, false);
    if captured.Err? { return Err(captured.failure); }
    if captured.value != manifest { return Err(Changed); }
  }

  /** The sizes of a manifest, added up until they pass the limit. */
  method FitsManifest(manifest: Tree, limit: nat) returns (fits: bool)
    ensures fits <==> TotalSize(manifest) <= limit
  {
    var total, remaining := 0, manifest;
    while remaining != map[]
      invariant total + TotalSize(remaining) == TotalSize(manifest) && total <= limit
      decreases |remaining|
    {
      var n :| n in remaining;
      TotalSizeWithout(remaining, n);
      total := total + Size(remaining[n]);
      if total > limit { return false; }
      remaining := remaining - {n};
    }
    return true;
  }
}
