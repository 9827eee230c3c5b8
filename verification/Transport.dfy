/** A workspace as an archive: packing on one side, validation and unpacking on the other. Members
    carry what a tar member carries of them; their encoding in bytes is not modelled. */
module Transport {
  import opened Models
  import opened Paths
  import opened Snapshot
  import opened Validation
  import opened Capture
  import opened Archive

  datatype Member =
    | Folder(name: Path)
    | Content(name: Path, entry: Entry)
    | Other(name: Path)

  /** The entries that the members of an archive describe. */
  function EntriesOf(members: seq<Member>): Tree {
    if members == [] then map[]
    else
      var last, front := members[|members| - 1], EntriesOf(members[..|members| - 1]);
      if last.Content? then front[last.name := last.entry] else front
  }

  function Names(members: seq<Member>): (names: set<Path>)
    ensures forall n :: n in names <==> exists m :: m in members && m.name == n
  {
    set m | m in members :: m.name
  }

  predicate IsInputParent(name: Path) {
    name == [INPUTS] || (|name| == 2 && name[0] == INPUTS && IsDigits(name[1]))
  }

  predicate MemberOk(m: Member) {
    !m.Other? && if IsInputParent(m.name) then m.Folder? else NameOk(m.name, true)
  }

  ghost predicate Distinct(members: seq<Member>) {
    forall i, j :: 0 <= i < j < |members| ==> members[i].name != members[j].name
  }

  /** No entry is, or is above, a directory of the archive. */
  predicate FolderOk(name: Path, entries: Tree) {
    forall k :: 0 <= k <= |name| ==> name[..k] !in entries
  }

  ghost predicate ArchiveOk(members: seq<Member>, limit: nat) {
    && Distinct(members)
    && (forall m :: m in members ==> MemberOk(m))
    && Within(EntriesOf(members), limit)
    && ValidEntries(EntriesOf(members), true)
    && (forall m :: m in members && m.Folder? ==> FolderOk(m.name, EntriesOf(members)))
  }

  lemma {:induction false} EntriesAreMembers(members: seq<Member>)
    ensures forall n :: n in EntriesOf(members) ==> Content(n, EntriesOf(members)[n]) in members
    ensures Distinct(members) ==> forall m :: m in members && m.Content? ==>
              m.name in EntriesOf(members) && EntriesOf(members)[m.name] == m.entry
  {
    if members != [] {
      var last, front := members[|members| - 1], members[..|members| - 1];
      EntriesAreMembers(front);
      forall n | n in EntriesOf(members) ensures Content(n, EntriesOf(members)[n]) in members {
        if last.Content? && n == last.name {
          assert last in members;
        } else {
          assert Content(n, EntriesOf(members)[n]) in front;
        }
      }
      if Distinct(members) {
        EntriesOfLast(members);
      }
    }
  }

  lemma EntriesOfLast(members: seq<Member>)
    requires members != [] && Distinct(members)
    requires var front := members[..|members| - 1];
             forall m :: m in front && m.Content? ==> m.name in EntriesOf(front) && EntriesOf(front)[m.name] == m.entry
    ensures forall m :: m in members && m.Content? ==>
              m.name in EntriesOf(members) && EntriesOf(members)[m.name] == m.entry
  {
    var last, front := members[|members| - 1], members[..|members| - 1];
    forall m | m in members && m.Content?
      ensures m.name in EntriesOf(members) && EntriesOf(members)[m.name] == m.entry
    {
      if m != last {
        var i :| 0 <= i < |members| && members[i] == m;
        assert front[i] == m && m.name != last.name;
      }
    }
  }

  // ---- packing ----

  predicate Describes(m: Member, entries: Tree) {
    match m
    case Folder(name) => name != [] && name in Directories(entries)
    case Content(name, entry) => name in entries && entry == entries[name]
    case Other(_) => false
  }

  /** Members that describe exactly these entries and their parents, directories before contents. */
  ghost predicate Packs(members: seq<Member>, entries: Tree) {
    && Distinct(members)
    && (forall m :: m in members ==> Describes(m, entries))
    && (forall n :: n in entries ==> Content(n, entries[n]) in members)
    && (forall d :: d in Directories(entries) && d != [] ==> Folder(d) in members)
  }

  lemma PackedEntries(members: seq<Member>, entries: Tree)
    requires Packs(members, entries)
    ensures EntriesOf(members) == entries
  {
    EntriesAreMembers(members);
    forall n ensures n in EntriesOf(members) <==> n in entries {
      if n in entries {
        assert Content(n, entries[n]) in members;
      }
      if n in EntriesOf(members) {
        assert Content(n, EntriesOf(members)[n]) in members;
      }
    }
    forall n | n in entries ensures EntriesOf(members)[n] == entries[n] {
      assert Content(n, entries[n]) in members;
    }
  }

  lemma FolderNames(entries: Tree, d: Path)
    requires ValidEntries(entries, true) && d in Directories(entries) && d != []
    ensures MemberOk(Folder(d)) && FolderOk(d, entries)
  {
    ValidIsFlat(entries, true);
    var n :| n in entries && d < n;
    assert NameOk(n, true);
    forall k | 0 <= k <= |d| ensures d[..k] !in entries {
      assert d[..k] < n;
    }
    if !IsInputParent(d) {
      FolderNameOk(n, d);
    }
  }

  lemma FolderNameOk(n: Path, d: Path)
    requires NameOk(n, true) && d < n && d != [] && !IsInputParent(d)
    ensures NameOk(d, true)
  {
    var relative := Relative(n, true);
    if IsInput(n, true) {
      assert d[0] == INPUTS && (|d| >= 2 ==> d[1] == n[1]);
      assert |d| >= 2 ==> IsDigits(d[1]);
      assert forall c :: c in d[2..] ==> c in relative;
    } else {
      assert forall c :: c in d ==> c in n;
      assert n == relative && INPUTS in PROTECTED;
      assert d[0] == n[0] && n[0] in relative;
    }
  }

  lemma PackedMember(m: Member, entries: Tree)
    requires ValidEntries(entries, true) && Describes(m, entries)
    ensures MemberOk(m) && (m.Folder? ==> FolderOk(m.name, entries))
  {
    if m.Folder? {
      FolderNames(entries, m.name);
    } else {
      assert NameOk(m.name, true) && INPUTS in PROTECTED;
      assert m.name == [INPUTS] ==> Relative(m.name, true) == m.name && INPUTS in m.name;
    }
  }

  /** What one side packs the other accepts, as the same entries. */
  lemma PackedIsAccepted(members: seq<Member>, entries: Tree, limit: nat)
    requires Packs(members, entries) && ValidEntries(entries, true) && Within(entries, limit)
    ensures ArchiveOk(members, limit) && EntriesOf(members) == entries
  {
    PackedEntries(members, entries);
    forall m | m in members ensures MemberOk(m) && (m.Folder? ==> FolderOk(m.name, entries)) {
      PackedMember(m, entries);
    }
  }

  /** The members so far: distinct, right, and with names among those done. */
  ghost predicate Packing(members: seq<Member>, entries: Tree, folders: set<Path>, contents: set<Path>) {
    && Distinct(members)
    && (forall m :: m in members ==> Describes(m, entries) && m.name in if m.Folder? then folders else contents)
    && (forall n :: n in contents && n in entries ==> Content(n, entries[n]) in members)
    && (forall d :: d in folders ==> Folder(d) in members)
  }

  lemma StillDistinct(members: seq<Member>, m: Member)
    requires Distinct(members) && m.name !in Names(members)
    ensures Distinct(members + [m])
  {
    forall i | 0 <= i < |members| ensures members[i].name != m.name {
      assert members[i] in members;
    }
  }

  lemma PackFolder(members: seq<Member>, entries: Tree, folders: set<Path>, contents: set<Path>, d: Path)
    requires Packing(members, entries, folders, contents) && d !in folders && d !in contents
    requires Describes(Folder(d), entries)
    ensures Packing(members + [Folder(d)], entries, folders + {d}, contents)
  {
    StillDistinct(members, Folder(d));
  }

  lemma PackContent(members: seq<Member>, entries: Tree, folders: set<Path>, contents: set<Path>, n: Path)
    requires Packing(members, entries, folders, contents) && n !in folders && n !in contents && n in entries
    ensures Packing(members + [Content(n, entries[n])], entries, folders, contents + {n})
  {
    StillDistinct(members, Content(n, entries[n]));
  }

  /** Directories come first, then files, then links. */
  function Rank(m: Member): nat {
    match m
    case Folder(_) => 0
    case Content(_, entry) => if entry.File? then 1 else 2
    case Other(_) => 3
  }

  ghost predicate InRankOrder(members: seq<Member>, highest: nat) {
    && (forall i, j :: 0 <= i < j < |members| ==> Rank(members[i]) <= Rank(members[j]))
    && (forall m :: m in members ==> Rank(m) <= highest)
  }

  lemma RankAppend(members: seq<Member>, m: Member, highest: nat)
    requires InRankOrder(members, highest) && Rank(m) == highest
    ensures InRankOrder(members + [m], highest)
  {
  }

  method PackFolders(entries: Tree, folders: set<Path>) returns (members: seq<Member>)
    requires forall d :: d in folders ==> Describes(Folder(d), entries)
    ensures Packing(members, entries, folders, {}) && InRankOrder(members, 0)
  {
    members := [];
    var remaining := folders;
    while remaining != {}
      invariant remaining <= folders && Packing(members, entries, folders - remaining, {})
      invariant InRankOrder(members, 0)
      decreases |remaining|
    {
      var d :| d in remaining;
      PackFolder(members, entries, folders - remaining, {}, d);
      RankAppend(members, Folder(d), 0);
      assert folders - remaining + {d} == folders - (remaining - {d});
      members, remaining := members + [Folder(d)], remaining - {d};
    }
    assert folders - remaining == folders;
  }

  method PackContents(before: seq<Member>, entries: Tree, ghost folders: set<Path>, ghost packed: set<Path>,
                      chosen: set<Path>, ghost rank: nat) returns (members: seq<Member>)
    requires Packing(before, entries, folders, packed) && chosen <= entries.Keys
    requires chosen !! packed && chosen !! folders
    requires InRankOrder(before, rank) && forall n :: n in chosen ==> Rank(Content(n, entries[n])) == rank
    ensures Packing(members, entries, folders, packed + chosen) && InRankOrder(members, rank)
  {
    members := before;
    var remaining := chosen;
    ghost var done := packed;
    while remaining != {}
      invariant done !! remaining && done + remaining == packed + chosen && remaining <= chosen
      invariant Packing(members, entries, folders, done) && InRankOrder(members, rank)
      decreases |remaining|
    {
      var n :| n in remaining;
      PackContent(members, entries, folders, done, n);
      RankAppend(members, Content(n, entries[n]), rank);
      members, remaining, done := members + [Content(n, entries[n])], remaining - {n}, done + {n};
    }
    assert done == packed + chosen;
  }

  lemma PackedAll(members: seq<Member>, entries: Tree, folders: set<Path>)
    requires Packing(members, entries, folders, entries.Keys) && folders == Directories(entries) - {[]}
    ensures Packs(members, entries)
  {
  }

  lemma AllKinds(entries: Tree, files: set<Path>, links: set<Path>)
    requires files <= entries.Keys && links == entries.Keys - files
    ensures {} + files == files && files + links == entries.Keys
  {
  }

  method PackEntries(entries: Tree) returns (members: seq<Member>)
    requires IsFlat(entries)
    ensures Packs(members, entries) && InRankOrder(members, 2)
  {
    hide Packing, Packs, InRankOrder;
    var folders := Directories(entries) - {[]};
    members := PackFolders(entries, folders);
    RankUp(members, 0, 1);
    var files := set n | n in entries.Keys && entries[n].File?;
    var links := entries.Keys - files;
    AllKinds(entries, files, links);
    members := PackContents(members, entries, folders, {}, files, 1);
    RankUp(members, 1, 2);
    members := PackContents(members, entries, folders, files, links, 2);
    PackedAll(members, entries, folders);
  }

  lemma RankUp(members: seq<Member>, low: nat, high: nat)
    requires InRankOrder(members, low) && low <= high
    ensures InRankOrder(members, high)
  {
  }

  /** The whole tree reads within `limit`, and its contents fit the workspace limit, if there is one. */
  ghost predicate Packable(fs: FileSystem, limit: nat, workspace: Option<nat>) {
    && Reads(fs, Listing(fs, true), limit, true)
    && (workspace.Some? ==> TotalSize(Captured(fs, Listing(fs, true))) <= workspace.value)
  }

  /** `pack_workspace`: directories, then files, then links. */
  method Pack(fs: FileSystem, limit: nat, workspace: Option<nat>) returns (r: Result<seq<Member>>)
    ensures r.Ok? <==> Packable(fs, limit, workspace)
    ensures r.Ok? ==> Packs(r.value, Captured(fs, Listing(fs, true))) && InRankOrder(r.value, 2)
  {
    hide Packs, InRankOrder;
    var read := ReadEntries(fs, Listing(fs, true), limit, true);
    if read.Err? { return Err(read.failure); }
    if workspace.Some? {
      var fits := FitsManifest(read.value, workspace.value);
      if !fits { return Err(TooLarge); }
    }
    ValidIsFlat(read.value, true);
    var members := PackEntries(read.value);
    return Ok(members);
  }

  // ---- unpacking ----

  ghost predicate ScanOk(members: seq<Member>, limit: nat) {
    Distinct(members) && (forall m :: m in members ==> MemberOk(m)) && Within(EntriesOf(members), limit)
  }

  /** The beginning of a good archive is good, and describes a part of its entries. */
  lemma ScanOfPrefix(members: seq<Member>, k: nat, limit: nat)
    requires k <= |members| && ScanOk(members, limit)
    ensures ScanOk(members[..k], limit)
  {
    var part, whole := EntriesOf(members[..k]), EntriesOf(members);
    EntriesAreMembers(members[..k]);
    EntriesAreMembers(members);
    forall n | n in part ensures n in whole && part[n] == whole[n] {
      assert Content(n, part[n]) in members[..k];
      assert Content(n, part[n]) in members;
    }
    PartIsSmaller(part, whole);
  }

  /** What the loop has read: a good beginning, its entries, their size and the names met. */
  ghost predicate Scanned(members: seq<Member>, limit: nat, entries: Tree, total: nat, seen: set<Path>) {
    && ScanOk(members, limit) && entries == EntriesOf(members)
    && total == TotalSize(entries) && seen == Names(members)
  }

  /** One member more: the tests of the loop are exactly those for a good archive. */
  lemma ScanOne(members: seq<Member>, m: Member, limit: nat)
    requires ScanOk(members, limit)
    ensures ScanOk(members + [m], limit)
       <==> m.name !in Names(members) && MemberOk(m) && Within(EntriesOf(members + [m]), limit)
    ensures EntriesOf(members + [m])
         == if m.Content? then EntriesOf(members)[m.name := m.entry] else EntriesOf(members)
    ensures Names(members + [m]) == Names(members) + {m.name}
  {
    var all := members + [m];
    assert all[..|members|] == members && all[|members|] == m;
    assert forall x :: x in all <==> x in members || x == m;
    DistinctOneMore(members, m);
  }

  lemma DistinctOneMore(members: seq<Member>, m: Member)
    requires Distinct(members)
    ensures Distinct(members + [m]) <==> m.name !in Names(members)
  {
    var all := members + [m];
    if m.name in Names(members) {
      var i :| 0 <= i < |members| && members[i].name == m.name;
      assert all[i].name == all[|members|].name;
    } else {
      StillDistinct(members, m);
    }
  }

  lemma NewEntry(members: seq<Member>, m: Member)
    requires m.Content? && m.name !in Names(members)
    ensures m.name !in EntriesOf(members)
    ensures TotalSize(EntriesOf(members)[m.name := m.entry]) == Size(m.entry) + TotalSize(EntriesOf(members))
  {
    EntriesAreMembers(members);
    forall n | n in EntriesOf(members) ensures n in Names(members) {
      assert Content(n, EntriesOf(members)[n]) in members;
    }
    TotalSizeWith(EntriesOf(members), m.name, m.entry);
  }

  method ScanMember(m: Member, limit: nat, entries: Tree, total: nat, seen: set<Path>, ghost before: seq<Member>)
    returns (r: Result<(Tree, nat)>)
    requires Scanned(before, limit, entries, total, seen)
    ensures r.Ok? <==> ScanOk(before + [m], limit)
    ensures r.Ok? ==> Scanned(before + [m], limit, r.value.0, r.value.1, seen + {m.name})
  {
    ScanOne(before, m, limit);
    if m.name in seen { return Err(Duplicate); }
    if IsInputParent(m.name) {
      if !m.Folder? { return Err(UnsafeType); }
    } else if !NameOk(m.name, true) {
      return Err(Rejected(UnsafePath));
    }
    match m {
      case Folder(_) =>
        return Ok((entries, total));
      case Content(name, entry) =>
        NewEntry(before, m);
        if total + Size(entry) > limit { return Err(TooLarge); }
        var after := entries[name := entry];
        if |after| > MAX_ENTRIES { return Err(TooMany); }
        return Ok((after, total + Size(entry)));
      case Other(_) =>
        return Err(UnsafeType);
    }
  }

  method Scan(members: seq<Member>, limit: nat) returns (r: Result<Tree>)
    ensures r.Ok? <==> ScanOk(members, limit)
    ensures r.Ok? ==> r.value == EntriesOf(members)
  {
    var entries: Tree, total: nat, seen: set<Path> := map[], 0, {};
    var i := 0;
    while i < |members|
      invariant 0 <= i <= |members|
      invariant Scanned(members[..i], limit, entries, total, seen)
    {
      assert members[..i + 1] == members[..i] + [members[i]];
      var next := ScanMember(members[i], limit, entries, total, seen, members[..i]);
      if next.Err? {
        if ScanOk(members, limit) {
          ScanOfPrefix(members, i + 1, limit);
        }
        return Err(next.failure);
      }
      seen := seen + {members[i].name};
      entries, total := next.value.0, next.value.1;
      i := i + 1;
    }
    assert members[..i] == members;
    return Ok(entries);
  }

  method CheckFolders(members: seq<Member>, entries: Tree) returns (ok: bool)
    ensures ok <==> forall m :: m in members && m.Folder? ==> FolderOk(m.name, entries)
  {
    for i := 0 to |members|
      invariant forall m :: m in members[..i] && m.Folder? ==> FolderOk(m.name, entries)
    {
      if members[i].Folder? && !FolderOk(members[i].name, entries) { return false; }
      assert members[..i + 1] == members[..i] + [members[i]];
    }
    assert members[..|members|] == members;
    return true;
  }

  /** `unpack_workspace`: the whole archive is validated before anything is written. It succeeds
      exactly for a good archive and an empty target, which then holds exactly its entries. */
  method Unpack(members: seq<Member>, occupied: bool, limit: nat) returns (r: Result<FileSystem>)
    ensures r.Ok? <==> ArchiveOk(members, limit) && !occupied
    ensures r.Ok? ==> r.value == FileSystemOf(EntriesOf(members))
  {
    var scan := Scan(members, limit);
    if scan.Err? { return Err(scan.failure); }
    var entries := scan.value;
    var fault := ValidateEntries(entries, true);
    if fault.Some? { return Err(Rejected(fault.value)); }
    var ok := CheckFolders(members, entries);
    if !ok { return Err(UnsafeDirectory); }
    if occupied { return Err(Occupied); }
    ValidIsFlat(entries, true);
    assert forall n :: n in entries ==> NameOk(n, true);
    r := WriteTree(entries);
  }

  /** There and back: whatever packs unpacks into an empty directory under the same limit, and what is
      captured there is what was captured at the start. */
  method Transfer(fs: FileSystem, limit: nat, workspace: Option<nat>)
    returns (sent: Result<seq<Member>>, received: Result<Tree>)
    ensures sent.Ok? <==> Packable(fs, limit, workspace)
    ensures sent.Ok? ==> received == Ok(Captured(fs, Listing(fs, true)))
  {
    received := Err(Changed);
    sent := Pack(fs, limit, workspace);
    if sent.Err? { return; }
    ghost var entries := Captured(fs, Listing(fs, true));
    PackedIsAccepted(sent.value, entries, limit);
    var there := Unpack(sent.value, false, limit);
    ReadsBack(entries, limit, true);
    received := ReadEntries(there.value, Listing(there.value, true), limit, true);
  }
}
