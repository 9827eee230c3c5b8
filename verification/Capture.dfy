/** Reading the entries of a tree, and writing entries to an empty one. Reading follows no link, not
    even among the parents of a name; the tree does not change while it is read. */
module Capture {
  import opened Models
  import opened Paths
  import opened Snapshot
  import opened Validation

  const MAX_ENTRIES := 10000

  datatype Failure =
    | TooLarge | TooMany | UnsafeParent | SpecialFile | Rejected(fault: Fault)
    | Duplicate | UnsafeType | UnsafeDirectory | Occupied | ThroughAnotherObject | Changed

  datatype Result<+T> = Ok(value: T) | Err(failure: Failure)

  // ---- sizes ----

  function Size(entry: Entry): nat {
    match entry
    case File(data, _) => |data|
    case Link(target) => |target|
  }

  ghost function TotalSize(entries: Tree): nat {
    if entries == map[] then 0
    else
      var n :| n in entries;
      Size(entries[n]) + TotalSize(entries - {n})
  }

  lemma {:induction false} TotalSizeWithout(entries: Tree, n: Path)
    requires n in entries
    ensures TotalSize(entries) == Size(entries[n]) + TotalSize(entries - {n})
    decreases |entries|
  {
    var m :| m in entries && TotalSize(entries) == Size(entries[m]) + TotalSize(entries - {m});
    if m != n {
      TotalSizeWithout(entries - {m}, n);
      TotalSizeWithout(entries - {n}, m);
      assert entries - {m} - {n} == entries - {n} - {m};
    }
  }

  lemma TotalSizeWith(entries: Tree, n: Path, entry: Entry)
    requires n !in entries
    ensures TotalSize(entries[n := entry]) == Size(entry) + TotalSize(entries)
    ensures |entries[n := entry]| == |entries| + 1
  {
    TotalSizeWithout(entries[n := entry], n);
    assert entries[n := entry] - {n} == entries;
    MapUpdateSize(entries, n, entry);
  }

  ghost predicate PartOf(part: Tree, entries: Tree) {
    forall n :: n in part ==> n in entries && part[n] == entries[n]
  }

  lemma {:induction false} PartIsSmaller(part: Tree, entries: Tree)
    requires PartOf(part, entries)
    ensures TotalSize(part) <= TotalSize(entries) && |part| <= |entries|
    decreases |part|
  {
    if part != map[] {
      var n :| n in part;
      PartIsSmaller(part - {n}, entries - {n});
      TotalSizeWithout(part, n);
      TotalSizeWithout(entries, n);
      assert part == (part - {n})[n := part[n]] && entries == (entries - {n})[n := entries[n]];
      MapUpdateSize(part - {n}, n, part[n]);
      MapUpdateSize(entries - {n}, n, entries[n]);
    }
  }

  // ---- reading ----

  datatype Sight = Absent | Blocked | There(seen: Object)

  /** What opening the parents one by one, without following links, and then looking at the name
      shows; the first `depth` parents are already open. */
  function Look(fs: FileSystem, name: Path, depth: nat): Sight
    requires depth < |name|
    decreases |name| - depth
  {
    if depth == |name| - 1 then if name in fs then There(fs[name]) else Absent
    else
      var parent := name[..depth + 1];
      if parent !in fs then Absent
      else if !fs[parent].Directory? then Blocked
      else Look(fs, name, depth + 1)
  }

  /** A name is seen only below real directories. */
  lemma {:induction false} LookMeaning(fs: FileSystem, name: Path, depth: nat)
    requires depth < |name|
    ensures Look(fs, name, depth).There? ==> name in fs && Look(fs, name, depth).seen == fs[name]
    ensures Look(fs, name, depth).There?
       <==> name in fs && forall k :: depth + 1 <= k <= |name| - 1 ==> name[..k] in fs && fs[name[..k]].Directory?
    decreases |name| - depth
  {
    if depth < |name| - 1 {
      LookMeaning(fs, name, depth + 1);
      var ok := name[..depth + 1] in fs && fs[name[..depth + 1]].Directory?;
      assert Look(fs, name, depth).There? <==> ok && Look(fs, name, depth + 1).There?;
    }
  }

  predicate Readable(item: Object) {
    item.Regular? || item.Symlink?
  }

  function EntryOf(item: Object): Entry
    requires Readable(item)
  {
    match item
    case Regular(data, executable) => File(data, executable)
    case Symlink(target) => Link(target)
  }

  predicate Seen(fs: FileSystem, name: Path) {
    name != [] && Look(fs, name, 0).There? && Readable(Look(fs, name, 0).seen)
  }

  /** The entries a capture of these names yields. */
  function Captured(fs: FileSystem, names: set<Path>): Tree {
    map n | n in names && Seen(fs, n) :: EntryOf(Look(fs, n, 0).seen)
  }

  predicate NameReads(fs: FileSystem, name: Path, inputs: bool) {
    NameOk(name, inputs) && (Seen(fs, name) || Look(fs, name, 0).Absent?)
  }

  ghost predicate Within(entries: Tree, limit: nat) {
    TotalSize(entries) <= limit && |entries| <= MAX_ENTRIES
  }

  /** When a capture succeeds. */
  ghost predicate Reads(fs: FileSystem, names: set<Path>, limit: nat, inputs: bool) {
    && NamesRead(fs, names, inputs)
    && Within(Captured(fs, names), limit)
    && ValidEntries(Captured(fs, names), inputs)
  }

  predicate ExcludedAt(name: Path, i: nat, inputs: bool)
    requires i < |name|
  {
    name[i] in PROTECTED && !(inputs && i == 0 && name[0] == INPUTS)
  }

  predicate Excluded(name: Path, inputs: bool) {
    exists i :: 0 <= i < |name| && ExcludedAt(name, i, inputs)
  }

  /** The names a walk over the whole tree selects: everything but directories, outside excluded ones. */
  function Listing(fs: FileSystem, inputs: bool): set<Path> {
    set n | n in fs.Keys && n != [] && !fs[n].Directory? && !Excluded(n, inputs)
  }

  method LookAt(fs: FileSystem, name: Path) returns (sight: Sight)
    requires name != []
    ensures sight == Look(fs, name, 0)
  {
    var depth := 0;
    while depth < |name| - 1
      invariant 0 <= depth <= |name| - 1
      invariant Look(fs, name, 0) == Look(fs, name, depth)
    {
      var parent := name[..depth + 1];
      if parent !in fs { return Absent; }
      if !fs[parent].Directory? { return Blocked; }
      depth := depth + 1;
    }
    return if name in fs then There(fs[name]) else Absent;
  }

  function Min(a: nat, b: nat): nat {
    if a <= b then a else b
  }

  /** Reads at most one byte beyond what the limit leaves. */
  function ReadBounded(data: seq<bv8>, left: nat): (read: seq<bv8>)
    ensures |read| <= left + 1 && read <= data
    ensures |read| <= left ==> read == data
    ensures |read| > left <==> |data| > left
  {
    data[..Min(Min(left, |data|) + 1, |data|)]
  }

  /** One name: its entry, if there is one, read within what the limit leaves. */
  method ReadOne(fs: FileSystem, name: Path, left: nat, inputs: bool) returns (r: Result<Option<Entry>>)
    ensures r.Ok? <==> NameReads(fs, name, inputs)
                       && (Seen(fs, name) ==> Size(EntryOf(Look(fs, name, 0).seen)) <= left)
    ensures r.Ok? ==> r.value == if Seen(fs, name) then Some(EntryOf(Look(fs, name, 0).seen)) else None
  {
    if !NameOk(name, inputs) { return Err(Rejected(UnsafePath)); }
    assert name != [];
    var sight := LookAt(fs, name);
    match sight
    case Absent => return Ok(None);
    case Blocked => return Err(UnsafeParent);
    case There(seen) =>
      match seen {
        case Symlink(target) =>
          if |target| > left { return Err(TooLarge); }
          return Ok(Some(Link(target)));
        case Regular(data, executable) =>
          var read := ReadBounded(data, left);
          if |read| > left { return Err(TooLarge); }
          return Ok(Some(File(read, executable)));
        case _ => return Err(SpecialFile);
      }
  }

  /** The entries so far are those of the names already visited. */
  ghost predicate Collected(captured: Tree, remaining: set<Path>, entries: Tree) {
    && PartOf(entries, captured)
    && (forall n :: n in captured ==> n in entries || n in remaining)
    && (forall n :: n in entries ==> n !in remaining)
  }

  /** An entry that does not fit what is left does not fit the whole either. */
  lemma OneMoreFits(captured: Tree, remaining: set<Path>, entries: Tree, name: Path)
    requires Collected(captured, remaining, entries) && name in remaining && name in captured
    ensures var after := entries[name := captured[name]];
            && Collected(captured, remaining - {name}, after)
            && TotalSize(after) == Size(captured[name]) + TotalSize(entries) <= TotalSize(captured)
            && |after| == |entries| + 1 <= |captured|
  {
    TotalSizeWith(entries, name, captured[name]);
    PartIsSmaller(entries[name := captured[name]], captured);
  }

  lemma CapturedAt(fs: FileSystem, names: set<Path>, name: Path)
    requires name in names
    ensures name in Captured(fs, names) <==> Seen(fs, name)
    ensures Seen(fs, name) ==> Captured(fs, names)[name] == EntryOf(Look(fs, name, 0).seen)
  {
  }

  ghost predicate NamesRead(fs: FileSystem, names: set<Path>, inputs: bool) {
    forall n :: n in names ==> NameReads(fs, n, inputs)
  }

  /** A stage of the reading: the entries so far, their size, and that both are within bounds. */
  ghost predicate Stage(captured: Tree, remaining: set<Path>, entries: Tree, total: nat, limit: nat) {
    && Collected(captured, remaining, entries)
    && total == TotalSize(entries) && Within(entries, limit)
  }

  method ReadNext(fs: FileSystem, names: set<Path>, name: Path, entries: Tree, total: nat, limit: nat, inputs: bool,
                  ghost remaining: set<Path>) returns (r: Result<(Tree, nat)>)
    requires Stage(Captured(fs, names), remaining, entries, total, limit)
    requires name in names && name in remaining
    ensures r.Ok? ==> NameReads(fs, name, inputs)
                      && Stage(Captured(fs, names), remaining - {name}, r.value.0, r.value.1, limit)
    ensures r.Err? ==> !NameReads(fs, name, inputs) || !Within(Captured(fs, names), limit)
  {
    ghost var captured := Captured(fs, names);
    var one := ReadOne(fs, name, limit - total, inputs);
    CapturedAt(fs, names, name);
    if name in captured {
      OneMoreFits(captured, remaining, entries, name);
    }
    if one.Err? { return Err(one.failure); }
    if one.value.None? { return Ok((entries, total)); }
    var after := entries[name := one.value.value];
    if |after| > MAX_ENTRIES { return Err(TooMany); }
    return Ok((after, total + Size(one.value.value)));
  }

  method ReadAll(fs: FileSystem, names: set<Path>, limit: nat, inputs: bool) returns (r: Result<Tree>)
    ensures r.Ok? <==> NamesRead(fs, names, inputs) && Within(Captured(fs, names), limit)
    ensures r.Ok? ==> r.value == Captured(fs, names)
  {
    var entries: Tree, total: nat, remaining := map[], 0, names;
    while remaining != {}
      invariant remaining <= names && NamesRead(fs, names - remaining, inputs)
      invariant Stage(Captured(fs, names), remaining, entries, total, limit)
      decreases |remaining|
    {
      var name :| name in remaining;
      var next := ReadNext(fs, names, name, entries, total, limit, inputs, remaining);
      if next.Err? { return Err(next.failure); }
      remaining := remaining - {name};
      entries, total := next.value.0, next.value.1;
    }
    assert entries == Captured(fs, names) && names - remaining == names;
    return Ok(entries);
  }

  /** `read_entries`: succeeds exactly when every name reads and the whole fits and is valid, and then
      returns every entry in full. */
  method ReadEntries(fs: FileSystem, names: set<Path>, limit: nat, inputs: bool) returns (r: Result<Tree>)
    ensures r.Ok? <==> Reads(fs, names, limit, inputs)
    ensures r.Ok? ==> r.value == Captured(fs, names)
  {
    r := ReadAll(fs, names, limit, inputs);
    if r.Err? { return; }
    var fault := ValidateEntries(r.value, inputs);
    if fault.Some? { return Err(Rejected(fault.value)); }
  }

  /** The check of a single name is the validator on that name alone. */
  lemma NameAlone(name: Path, inputs: bool)
    ensures NameOk(name, inputs) <==> ValidEntries(map[name := File([], false)], inputs)
  {
    var one: Tree := map[name := File([], false)];
    var scope := ScopeOf(name, inputs);
    if NameOk(name, inputs) {
      forall r | r in Namespace(one, inputs, scope)
        ensures r != [] && EntryOk(Namespace(one, inputs, scope), r)
      {
        SingletonNamespace(name, inputs, r);
      }
    }
  }

  lemma SingletonNamespace(name: Path, inputs: bool, r: Path)
    requires r in Namespace(map[name := File([], false)], inputs, ScopeOf(name, inputs)) && NameOk(name, inputs)
    ensures var group := Namespace(map[name := File([], false)], inputs, ScopeOf(name, inputs));
            r == Relative(name, inputs) && r != [] && r !in Directories(group) && group[r].File?
  {
    var one: Tree, scope := map[name := File([], false)], ScopeOf(name, inputs);
    InNamespace(one, inputs, scope, r);
    var group := Namespace(one, inputs, scope);
    forall n | n in group ensures n == Relative(name, inputs) {
      InNamespace(one, inputs, scope, n);
      assert scope + n == name;
    }
  }

  // ---- writing ----

  /** The tree after an object is created under its name and missing parents are made. */
  function Placed(fs: FileSystem, name: Path, item: Object): FileSystem {
    map p | p in fs.Keys + (set k | 0 <= k <= |name| :: name[..k]) ::
      if p == name then item else if p in fs then fs[p] else Directory
  }

  /** Whether creating the name would have to go through, or replace, something else. */
  predicate InTheWay(fs: FileSystem, name: Path) {
    name in fs || exists k :: 0 <= k < |name| && name[..k] in fs && !fs[name[..k]].Directory?
  }

  /** Makes the parents and creates the object. */
  method Place(before: FileSystem, name: Path, item: Object) returns (r: Result<FileSystem>)
    requires name != [] && [] in before && before[[]].Directory?
    ensures r.Ok? <==> !InTheWay(before, name)
    ensures r.Ok? ==> r.value == Placed(before, name, item)
  {
    var fs := before;
    var k := 0;
    while k < |name| - 1
      invariant 0 <= k <= |name| - 1
      invariant forall j :: 0 <= j <= k ==> name[..j] in fs && fs[name[..j]].Directory?
      invariant forall j :: 0 <= j <= k && name[..j] in before ==> before[name[..j]].Directory?
      invariant forall p :: p in fs <==> p in before || exists j :: 0 <= j <= k && p == name[..j]
      invariant forall p :: p in fs ==> fs[p] == if p in before then before[p] else Directory
    {
      k := k + 1;
      var parent := name[..k];
      if parent !in fs {
        fs := fs[parent := Directory];
      } else if !fs[parent].Directory? {
        return Err(ThroughAnotherObject);
      }
    }
    if name in fs { return Err(ThroughAnotherObject); }
    fs := fs[name := item];
    assert name[..|name|] == name;
    return Ok(fs);
  }
}
