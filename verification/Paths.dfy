/** Names inside a snapshot: the text of a relative path and its components. */
module Paths {
  import opened Models

  /** Directories that belong to the environment, never to a candidate. */
  const PROTECTED: set<string> := {".git", ".codex", ".claude", ".fleet", ".agents", ".fleet-inputs"}

  function Split(text: string): (parts: seq<string>)
    ensures |parts| >= 1
  {
    if text == "" then [""]
    else if text[0] == '/' then [""] + Split(text[1..])
    else
      var rest := Split(text[1..]);
      [[text[0]] + rest[0]] + rest[1..]
  }

  function Join(parts: seq<string>): string {
    if |parts| == 0 then ""
    else if |parts| == 1 then parts[0]
    else parts[0] + "/" + Join(parts[1..])
  }

  lemma {:induction false} JoinSplit(text: string)
    ensures Join(Split(text)) == text
  {
    if text != "" {
      JoinSplit(text[1..]);
      var rest := Split(text[1..]);
      if text[0] == '/' {
        assert ([""] + rest)[1..] == rest;
      } else {
        assert ([[text[0]] + rest[0]] + rest[1..])[1..] == rest[1..];
      }
    }
  }

  lemma {:induction false} SplitPart(part: string, rest: string)
    requires '/' !in part
    ensures Split(part + "/" + rest) == [part] + Split(rest)
    ensures Split(part) == [part]
  {
    var text := part + "/" + rest;
    if part == "" {
      assert text[1..] == rest;
    } else {
      SplitPart(part[1..], rest);
      assert text[1..] == part[1..] + "/" + rest;
      assert [part[0]] + part[1..] == part;
    }
  }

  lemma {:induction false} SplitJoin(parts: seq<string>)
    requires |parts| >= 1 && forall p :: p in parts ==> '/' !in p
    ensures Split(Join(parts)) == parts
  {
    if |parts| == 1 {
      SplitPart(parts[0], "");
    } else {
      SplitJoin(parts[1..]);
      SplitPart(parts[0], Join(parts[1..]));
    }
  }

  lemma {:induction false} SplitHasNoSlash(text: string)
    ensures forall p :: p in Split(text) ==> '/' !in p
  {
    if text != "" {
      SplitHasNoSlash(text[1..]);
      var rest := Split(text[1..]);
      if text[0] != '/' {
        assert rest[0] in rest;
        assert forall p :: p in rest[1..] ==> p in rest;
      }
    }
  }

  // ---- safe_path ----

  /** The parts of a pure path: its components without the empty ones and the dots. */
  function Parts(components: seq<string>): seq<string> {
    if components == [] then []
    else (if components[0] == "" || components[0] == "." then [] else [components[0]]) + Parts(components[1..])
  }

  lemma {:induction false} NothingDropped(components: seq<string>)
    ensures |Parts(components)| <= |components|
    ensures Parts(components) == components <==> "" !in components && "." !in components
    ensures |Parts(components)| == |components| ==> Parts(components) == components
    ensures forall p :: p in Parts(components) ==> p in components && p != "" && p != "."
  {
    if components != [] {
      var first, rest := components[0], components[1..];
      NothingDropped(rest);
      assert components == [first] + rest;
      assert forall p :: p in components <==> p == first || p in rest;
      var kept := Parts(components);
      if first == "" || first == "." {
        assert kept == Parts(rest);
      } else {
        assert kept == [first] + Parts(rest);
        assert kept[1..] == Parts(rest);
      }
    }
  }

  predicate ForbiddenPart(part: string) {
    part in {"", ".", ".."} || part in PROTECTED
  }

  /** `safe_path`: the text is the normal form of a relative path without forbidden parts. */
  predicate SafePath(name: string) {
    var parts := Parts(Split(name));
    && !(|name| > 0 && name[0] == '/')
    && parts != []
    && (forall p :: p in parts ==> !ForbiddenPart(p))
    && Join(parts) == name
    && '\0' !in name
  }

  predicate SafePart(part: string) {
    !ForbiddenPart(part) && '/' !in part && '\0' !in part
  }

  predicate SafeParts(path: Path) {
    path != [] && forall p :: p in path ==> SafePart(p)
  }

  lemma {:induction false} CharacterIsInAPart(path: Path, c: char)
    requires c in Join(path) && c != '/'
    ensures exists p :: p in path && c in p
  {
    if |path| == 1 {
      assert path[0] in path;
    } else if |path| > 1 {
      if c !in path[0] {
        CharacterIsInAPart(path[1..], c);
        var p :| p in path[1..] && c in p;
        assert p in path;
      } else {
        assert path[0] in path;
      }
    }
  }

  lemma {:induction false} PartIsInTheText(path: Path, part: string, c: char)
    requires part in path && c in part
    ensures c in Join(path)
  {
    if |path| > 1 && part != path[0] {
      PartIsInTheText(path[1..], part, c);
    }
  }

  /** Safe names are exactly the texts of safe component sequences ... */
  lemma SafePathMeaning(name: string)
    ensures SafePath(name) <==> SafeParts(Split(name))
  {
    var components := Split(name);
    var parts := Parts(components);
    JoinSplit(name);
    SplitHasNoSlash(name);
    NothingDropped(components);
    if SafePath(name) {
      assert forall p :: p in parts ==> '/' !in p;
      SplitJoin(parts);
      forall p | p in components ensures SafePart(p) {
        if '\0' in p {
          PartIsInTheText(components, p, '\0');
        }
      }
    }
    if SafeParts(components) {
      assert parts == components;
      if '\0' in name {
        CharacterIsInAPart(components, '\0');
      }
      assert components[0] in components;
    }
  }

  /** ... and each is the text of exactly one, so names may be represented by their components. */
  lemma SafePathsAreSafeParts(path: Path)
    requires SafeParts(path)
    ensures SafePath(Join(path)) && Split(Join(path)) == path
  {
    SplitJoin(path);
    SafePathMeaning(Join(path));
  }
}
