/** The validator of snapshot entries. Upstream inputs travel under `.fleet-inputs/<n>`, each a
    namespace of its own. */
module Validation {
  import opened Models
  import opened Paths
  import opened Snapshot

  const INPUTS := ".fleet-inputs"

  datatype Fault = UnsafePath | BadLink(name: Path)

  predicate IsDigits(text: string) {
    text != "" && forall c :: c in text ==> '0' <= c <= '9'
  }

  predicate IsInput(name: Path, inputs: bool) {
    inputs && |name| >= 2 && name[0] == INPUTS
  }

  function ScopeOf(name: Path, inputs: bool): (scope: Path)
    ensures scope <= name
  {
    if IsInput(name, inputs) then name[..2] else []
  }

  function Relative(name: Path, inputs: bool): (r: Path)
    ensures ScopeOf(name, inputs) + r == name
  {
    name[|ScopeOf(name, inputs)|..]
  }

  predicate NameOk(name: Path, inputs: bool) {
    && (IsInput(name, inputs) ==> |name| >= 3 && IsDigits(name[1]))
    && SafeParts(Relative(name, inputs))
  }

  /** The entries of one namespace, under their names relative to it. */
  function Namespace(entries: Tree, inputs: bool, scope: Path): Tree {
    map r | r in (set n | n in entries.Keys && ScopeOf(n, inputs) == scope :: Relative(n, inputs)) ::
      entries[scope + r]
  }

  predicate ValidEntries(entries: Tree, inputs: bool) {
    && (forall n :: n in entries ==> NameOk(n, inputs))
    && (forall n :: n in entries ==> NamespaceOk(Namespace(entries, inputs, ScopeOf(n, inputs))))
  }

  lemma InNamespace(entries: Tree, inputs: bool, scope: Path, r: Path)
    ensures r in Namespace(entries, inputs, scope)
       <==> scope + r in entries && ScopeOf(scope + r, inputs) == scope
    ensures r in Namespace(entries, inputs, scope) ==> Namespace(entries, inputs, scope)[r] == entries[scope + r]
  {
    var name := scope + r;
    if name in entries && ScopeOf(name, inputs) == scope {
      assert Relative(name, inputs) == r;
    }
  }

  lemma NamespaceIsSafe(entries: Tree, inputs: bool, scope: Path)
    requires forall n :: n in entries ==> NameOk(n, inputs)
    ensures NamesAreSafe(Namespace(entries, inputs, scope))
  {
    forall r | r in Namespace(entries, inputs, scope) ensures SafeParts(r) {
      InNamespace(entries, inputs, scope, r);
      assert Relative(scope + r, inputs) == r;
    }
  }

  // ---- the validator ----

  method CheckTarget(directories: set<Path>, selected: Tree, name: Path, target: string) returns (ok: bool)
    requires name != [] && directories == Directories(selected)
    ensures ok <==> TargetOk(selected, name, target)
  {
    if target == "" || '\0' in target { return false; }
    if target[0] == '/' { return false; }
    var parts := name[..|name| - 1];
    var components := Split(target);
    var index := 0;
    assert components[0..] == components;
    while index < |components|
      invariant 0 <= index <= |components|
      invariant Walk(directories, name[..|name| - 1], components) == Walk(directories, parts, components[index..])
    {
      var part := components[index];
      assert components[index..][0] == part && components[index..][1..] == components[index + 1..];
      if part == ".." {
        if parts == [] { return false; }
        parts := parts[..|parts| - 1];
      } else if part != "" && part != "." {
        if part in PROTECTED { return false; }
        parts := parts + [part];
      }
      if index < |components| - 1 && parts !in directories { return false; }
      index := index + 1;
    }
    ok := parts in selected && selected[parts].File?;
  }

  method CheckNamespace(scope: Path, selected: Tree) returns (fault: Option<Fault>)
    requires forall n :: n in selected ==> n != []
    ensures fault.None? <==> NamespaceOk(selected)
    ensures fault.Some? ==> exists n :: n in selected && !EntryOk(selected, n) && fault.value == BadLink(scope + n)
  {
    var directories := Directories(selected);
    var remaining := selected.Keys;
    while remaining != {}
      invariant remaining <= selected.Keys
      invariant forall n :: n in selected && n !in remaining ==> EntryOk(selected, n)
      decreases |remaining|
    {
      var name :| name in remaining;
      remaining := remaining - {name};
      if name in directories { return Some(BadLink(scope + name)); }
      if selected[name].Link? {
        var ok := CheckTarget(directories, selected, name, selected[name].target);
        if !ok { return Some(BadLink(scope + name)); }
      }
    }
    fault := None;
  }

  /** The grouping of the entries visited so far: each namespace met, under its scope. */
  ghost predicate Grouped(groups: map<Path, Tree>, visited: Tree, inputs: bool) {
    && (forall n :: n in visited ==> ScopeOf(n, inputs) in groups)
    && (forall s :: s in groups ==> groups[s] == Namespace(visited, inputs, s) && IsScope(visited, inputs, s))
  }

  ghost predicate IsScope(entries: Tree, inputs: bool, scope: Path) {
    exists n :: n in entries && ScopeOf(n, inputs) == scope
  }

  lemma NamespaceGrowsAt(visited: Tree, inputs: bool, name: Path, entry: Entry, scope: Path, r: Path)
    requires name !in visited
    ensures r in Namespace(visited[name := entry], inputs, scope)
       <==> r in Namespace(visited, inputs, scope) || (ScopeOf(name, inputs) == scope && r == Relative(name, inputs))
    ensures r in Namespace(visited[name := entry], inputs, scope) ==>
              Namespace(visited[name := entry], inputs, scope)[r]
              == if ScopeOf(name, inputs) == scope && r == Relative(name, inputs) then entry
                 else Namespace(visited, inputs, scope)[r]
  {
    InNamespace(visited, inputs, scope, r);
    InNamespace(visited[name := entry], inputs, scope, r);
    assert ScopeOf(name, inputs) == scope && r == Relative(name, inputs) ==> scope + r == name;
    assert scope + r == name ==> r == name[|scope|..];
  }

  lemma NamespaceGrows(visited: Tree, inputs: bool, name: Path, entry: Entry, scope: Path)
    requires name !in visited
    ensures Namespace(visited[name := entry], inputs, scope)
         == if ScopeOf(name, inputs) == scope then Namespace(visited, inputs, scope)[Relative(name, inputs) := entry]
            else Namespace(visited, inputs, scope)
  {
    hide Namespace;
    var before, after := Namespace(visited, inputs, scope), Namespace(visited[name := entry], inputs, scope);
    var now := if ScopeOf(name, inputs) == scope then before[Relative(name, inputs) := entry] else before;
    forall r ensures (r in after <==> r in now) && (r in after ==> after[r] == now[r]) {
      NamespaceGrowsAt(visited, inputs, name, entry, scope, r);
    }
  }

  lemma ScopeAppears(visited: Tree, inputs: bool, name: Path, entry: Entry, scope: Path)
    requires IsScope(visited, inputs, scope) || ScopeOf(name, inputs) == scope
    ensures IsScope(visited[name := entry], inputs, scope)
  {
    if ScopeOf(name, inputs) == scope {
      assert name in visited[name := entry];
    } else {
      var n :| n in visited && ScopeOf(n, inputs) == scope;
      assert n in visited[name := entry];
    }
  }

  lemma EmptyNamespace(visited: Tree, inputs: bool, scope: Path)
    requires !IsScope(visited, inputs, scope)
    ensures Namespace(visited, inputs, scope) == map[]
  {
    forall r ensures r !in Namespace(visited, inputs, scope) {
      InNamespace(visited, inputs, scope, r);
    }
  }

  /** One step of the grouping, with an empty group where there was none (`setdefault`). */
  function Group(groups: map<Path, Tree>, name: Path, entry: Entry, inputs: bool): map<Path, Tree> {
    var scope := ScopeOf(name, inputs);
    groups[scope := (if scope in groups then groups[scope] else map[])[Relative(name, inputs) := entry]]
  }

  lemma GroupOne(groups: map<Path, Tree>, visited: Tree, inputs: bool, name: Path, entry: Entry)
    requires Grouped(groups, visited, inputs) && name !in visited
    ensures Grouped(Group(groups, name, entry, inputs), visited[name := entry], inputs)
  {
    var after, scope := Group(groups, name, entry, inputs), ScopeOf(name, inputs);
    forall s | s in after
      ensures after[s] == Namespace(visited[name := entry], inputs, s)
      ensures IsScope(visited[name := entry], inputs, s)
    {
      NamespaceGrows(visited, inputs, name, entry, s);
      ScopeAppears(visited, inputs, name, entry, s);
      if s !in groups {
        EmptyNamespace(visited, inputs, s);
      }
    }
  }

  method GroupEntries(entries: Tree, inputs: bool) returns (fault: Option<Fault>, groups: map<Path, Tree>)
    ensures fault.None? <==> forall n :: n in entries ==> NameOk(n, inputs)
    ensures fault.Some? ==> fault.value == UnsafePath
    ensures fault.None? ==> Grouped(groups, entries, inputs)
  {
    groups := map[];
    var remaining := entries.Keys;
    ghost var visited: Tree := map[];
    while remaining != {}
      invariant forall n :: n in entries <==> n in remaining || n in visited
      invariant forall n :: n in visited ==> n !in remaining && visited[n] == entries[n] && NameOk(n, inputs)
      invariant Grouped(groups, visited, inputs)
      decreases |remaining|
    {
      var name :| name in remaining;
      remaining := remaining - {name};
      if IsInput(name, inputs) && (|name| < 3 || !IsDigits(name[1])) { return Some(UnsafePath), groups; }
      if !SafeParts(Relative(name, inputs)) { return Some(UnsafePath), groups; }
      GroupOne(groups, visited, inputs, name, entries[name]);
      groups := Group(groups, name, entries[name], inputs);
      visited := visited[name := entries[name]];
    }
    assert visited == entries;
    fault := None;
  }

  method ValidateEntries(entries: Tree, inputs: bool) returns (fault: Option<Fault>)
    ensures fault.None? <==> ValidEntries(entries, inputs)
  {
    var groups;
    fault, groups := GroupEntries(entries, inputs);
    if fault.Some? { return; }
    var scopes := groups.Keys;
    while scopes != {}
      invariant fault.None? && scopes <= groups.Keys
      invariant forall s :: s in groups && s !in scopes ==> NamespaceOk(Namespace(entries, inputs, s))
      decreases |scopes|
    {
      var scope :| scope in scopes;
      scopes := scopes - {scope};
      NamespaceIsSafe(entries, inputs, scope);
      fault := CheckNamespace(scope, groups[scope]);
      if fault.Some? {
        assert IsScope(entries, inputs, scope);
        return;
      }
    }
    assert forall n :: n in entries ==> ScopeOf(n, inputs) in groups;
  }

  // ---- what acceptance means ----

  /** Artifact entries: acceptance is exactly that the names are safe, the entries form a tree, and
      every link in that tree really resolves, within it and through no further link, to a file. */
  lemma ValidMeaning(entries: Tree)
    ensures ValidEntries(entries, false)
       <==> NamesAreSafe(entries) && IsFlat(entries) && LinksResolve(FileSystemOf(entries))
  {
    assert forall n :: Relative(n, false) == n && ScopeOf(n, false) == [];
    forall r ensures r in Namespace(entries, false, []) <==> r in entries {
      InNamespace(entries, false, [], r);
      assert [] + r == r;
    }
    assert Namespace(entries, false, []) == entries by {
      forall r | r in entries ensures Namespace(entries, false, [])[r] == entries[r] {
        InNamespace(entries, false, [], r);
        assert [] + r == r;
      }
    }
    if NamesAreSafe(entries) {
      NamespaceMeaning(entries);
      assert entries == map[] ==> NamespaceOk(entries);
    }
    assert (forall n :: n in entries ==> NameOk(n, false)) <==> NamesAreSafe(entries);
  }

  /** A name and a name below it belong to the same namespace. */
  lemma BelowInTheSameScope(n: Path, below: Path, inputs: bool)
    requires NameOk(n, inputs) && NameOk(below, inputs) && n < below
    ensures ScopeOf(n, inputs) == ScopeOf(below, inputs)
    ensures Relative(n, inputs) < Relative(below, inputs)
  {
    assert INPUTS in PROTECTED;
    assert n[0] in n && SafeParts(Relative(n, inputs));
  }

  lemma NothingBelowAnEntry(entries: Tree, inputs: bool, n: Path, below: Path)
    requires ValidEntries(entries, inputs) && n in entries && below in entries
    ensures !(n < below)
  {
    if n < below {
      BelowInTheSameScope(n, below, inputs);
      var scope := ScopeOf(n, inputs);
      InNamespace(entries, inputs, scope, Relative(n, inputs));
      InNamespace(entries, inputs, scope, Relative(below, inputs));
    }
  }

  /** Namespaces never overlap, so the entries form one tree. */
  lemma ValidIsFlat(entries: Tree, inputs: bool)
    requires ValidEntries(entries, inputs)
    ensures IsFlat(entries)
  {
    forall n, below | n in entries && below in entries ensures !(n < below) {
      NothingBelowAnEntry(entries, inputs, n, below);
    }
  }

  /** A tree under a directory of a larger one: what resolves in it resolves alike in the larger. */
  ghost predicate Embedded(small: FileSystem, big: FileSystem, scope: Path) {
    forall p :: p in small ==> scope + p in big && big[scope + p] == small[p]
  }

  lemma {:induction false} ResolutionEmbeds(small: FileSystem, big: FileSystem, scope: Path, at: Path,
                                            components: seq<string>)
    requires Embedded(small, big, scope) && Resolve(small, at, components, 0).Found?
    ensures Resolve(big, scope + at, components, 0)
         == Found(scope + Resolve(small, at, components, 0).path)
    decreases |components|
  {
    if components != [] {
      var part, rest := components[0], components[1..];
      if part == "" || part == "." {
        ResolutionEmbeds(small, big, scope, at, rest);
      } else if part == ".." {
        ResolutionEmbeds(small, big, scope, at[..|at| - 1], rest);
        assert (scope + at)[..|scope + at| - 1] == scope + at[..|at| - 1];
      } else {
        ResolutionEmbeds(small, big, scope, at + [part], rest);
        assert (scope + at) + [part] == scope + (at + [part]);
      }
    }
  }

  lemma PrefixUnder(scope: Path, p: Path, r: Path)
    requires p < r
    ensures scope + p < scope + r
  {
  }

  lemma DirectoryEmbeds(entries: Tree, inputs: bool, scope: Path, p: Path)
    requires forall n :: n in entries ==> NameOk(n, inputs)
    requires IsScope(entries, inputs, scope)
    requires p == [] || p in Directories(Namespace(entries, inputs, scope))
    ensures scope + p in Directories(entries)
  {
    if p in Directories(Namespace(entries, inputs, scope)) {
      var r :| r in Namespace(entries, inputs, scope) && p < r;
      InNamespace(entries, inputs, scope, r);
      PrefixUnder(scope, p, r);
    } else {
      var n :| n in entries && ScopeOf(n, inputs) == scope;
      assert NameOk(n, inputs) && Relative(n, inputs) != [];
      PrefixUnder(scope, [], Relative(n, inputs));
    }
  }

  lemma NamespaceEmbeds(entries: Tree, inputs: bool, scope: Path)
    requires ValidEntries(entries, inputs) && IsScope(entries, inputs, scope)
    ensures Embedded(FileSystemOf(Namespace(entries, inputs, scope)), FileSystemOf(entries), scope)
  {
    var group := Namespace(entries, inputs, scope);
    var small, big := FileSystemOf(group), FileSystemOf(entries);
    ValidIsFlat(entries, inputs);
    forall p | p in small ensures scope + p in big && big[scope + p] == small[p] {
      if p in group && p !in Directories(group) {
        InNamespace(entries, inputs, scope, p);
        assert scope + p in entries;
      } else {
        DirectoryEmbeds(entries, inputs, scope, p);
        DirectoryInTree(entries, scope + p);
      }
    }
  }

  /** Within its namespace an accepted link ends at a regular file. */
  lemma LinkEndsInNamespace(entries: Tree, inputs: bool, name: Path) returns (end: Path)
    requires ValidEntries(entries, inputs) && name in entries && entries[name].Link?
    ensures var scope, relative := ScopeOf(name, inputs), Relative(name, inputs);
            var group := Namespace(entries, inputs, scope);
            && relative != []
            && ResolveLink(FileSystemOf(group), relative, entries[name].target, 0) == Found(end)
            && end in group && group[end].File? && entries[name].target != "" && entries[name].target[0] != '/'
  {
    var scope, relative, target := ScopeOf(name, inputs), Relative(name, inputs), entries[name].target;
    var group := Namespace(entries, inputs, scope);
    InNamespace(entries, inputs, scope, relative);
    NamespaceIsSafe(entries, inputs, scope);
    assert EntryOk(group, relative);
    NamespaceMeaning(group);
    TargetOkIsResolution(group, relative, target);
    end := Walk(Directories(group), relative[..|relative| - 1], Split(target)).value;
  }

  lemma ParentUnder(scope: Path, relative: Path)
    requires relative != []
    ensures (scope + relative)[..|scope + relative| - 1] == scope + relative[..|relative| - 1]
  {
  }

  /** Whole workspaces, inputs included: an accepted link, resolved in the full tree with any number
      of links allowed, ends at a regular file of its own namespace. */
  lemma LinksStayInTheirNamespace(entries: Tree, inputs: bool, name: Path, links: nat)
    requires ValidEntries(entries, inputs) && name in entries && entries[name].Link? && name != []
    ensures var r := ResolveLink(FileSystemOf(entries), name, entries[name].target, links);
            && r.Found? && r.path in entries && entries[r.path].File?
            && IsFile(FileSystemOf(entries), r)
            && ScopeOf(r.path, inputs) == ScopeOf(name, inputs)
  {
    var scope, relative, target := ScopeOf(name, inputs), Relative(name, inputs), entries[name].target;
    var group := Namespace(entries, inputs, scope);
    var end := LinkEndsInNamespace(entries, inputs, name);
    NamespaceEmbeds(entries, inputs, scope);
    var at := relative[..|relative| - 1];
    ResolutionEmbeds(FileSystemOf(group), FileSystemOf(entries), scope, at, Split(target));
    ParentUnder(scope, relative);
    NoSecondLink(FileSystemOf(entries), scope + at, Split(target), links);
    InNamespace(entries, inputs, scope, end);
    ValidIsFlat(entries, inputs);
  }
}
