/** Destination-host patterns: what matching the text of one pattern against another means. */
module Hosts {
  import opened Models

  // ---- shell-style matching of a whole string, with `*` as the only wildcard ----

  predicate Glob(s: string, p: string)
    decreases |p|
  {
    if p == "" then s == ""
    else if p[0] == '*' then exists i | 0 <= i <= |s| :: Glob(s[i..], p[1..])
    else s != "" && s[0] == p[0] && Glob(s[1..], p[1..])
  }

  predicate EndsWith(s: string, suffix: string) {
    |suffix| <= |s| && s[|s| - |suffix|..] == suffix
  }

  lemma {:induction false} GlobLiteral(s: string, p: string)
    requires '*' !in p
    ensures Glob(s, p) <==> s == p
    decreases |p|
  {
    if p != "" && s != "" && s[0] == p[0] {
      GlobLiteral(s[1..], p[1..]);
      assert s == [s[0]] + s[1..] && p == [p[0]] + p[1..];
    }
  }

  lemma GlobAfterStar(s: string, p: string)
    requires '*' !in p
    ensures Glob(s, "*" + p) <==> EndsWith(s, p)
  {
    var q := "*" + p;
    assert q[1..] == p;
    forall i | 0 <= i <= |s| ensures Glob(s[i..], p) <==> s[i..] == p {
      GlobLiteral(s[i..], p);
    }
    if EndsWith(s, p) {
      assert Glob(s[|s| - |p|..], q[1..]);
    }
  }

  // ---- the host grammar ----

  predicate Alphanumeric(c: char) {
    'a' <= c <= 'z' || '0' <= c <= '9'
  }

  predicate HostChar(c: char) {
    Alphanumeric(c) || c == '.' || c == '-'
  }

  /** A concrete host name: no wildcard, no empty label. */
  predicate IsHost(h: string) {
    && h != ""
    && (forall c :: c in h ==> HostChar(c))
    && Alphanumeric(h[0]) && Alphanumeric(h[|h| - 1])
    && (forall i, j :: 0 <= i < |h| && i < j < |h| && h[i] == '.' && h[j] == '.' ==> j != i + 1)
  }

  predicate IsName(n: string) {
    IsHost(n) && |n| <= 253
  }

  predicate IsWildcard(p: string) {
    |p| > 2 && p[..2] == "*." && IsName(p[2..])
  }

  /** `*`, `*.name` or `name`: the patterns an Authority may list. */
  predicate IsPattern(p: string) {
    p == "*" || IsWildcard(p) || IsName(p)
  }

  /** The three shapes spelled out: everything, one name, or every name below one. */
  predicate Covers(s: string, q: string)
    requires IsPattern(q)
  {
    if q == "*" then true else if IsName(q) then s == q else EndsWith(s, q[1..])
  }

  /** What a pattern matches, for concrete hosts and for the text of other patterns alike. */
  lemma GlobMeaning(s: string, q: string)
    requires IsPattern(q)
    ensures Glob(s, q) <==> Covers(s, q)
  {
    if q == "*" {
      GlobAfterStar(s, "");
      assert "*" + "" == "*";
    } else if IsName(q) {
      assert !HostChar('*');
      GlobLiteral(s, q);
    } else {
      assert q == "*" + q[1..];
      assert forall c :: c in q[1..] ==> c == '.' || c in q[2..];
      GlobAfterStar(s, q[1..]);
    }
  }

  lemma EndsWithTransitive(s: string, t: string, u: string)
    requires EndsWith(s, t) && EndsWith(t, u)
    ensures EndsWith(s, u)
  {
    assert s[|s| - |u|..] == t[|t| - |u|..];
  }

  lemma EndsWithNested(s: string, t: string, u: string)
    requires EndsWith(s, t) && EndsWith(s, u) && |u| <= |t|
    ensures EndsWith(t, u)
  {
    assert t[|t| - |u|..] == s[|s| - |u|..];
  }

  lemma EndsWithAll(s: string, suffix: string)
    requires |suffix| >= |s|
    ensures EndsWith(s, suffix) <==> s == suffix
  {
    assert s[0..] == s;
  }

  lemma DropFirst(tail: string, j: nat)
    requires j <= |tail|
    ensures ("*" + tail)[1 + j..] == tail[j..]
  {
  }

  /** A suffix that starts with a dot and ends `*` + `tail` already ends `tail`. */
  lemma DottedSuffix(tail: string, suffix: string)
    requires suffix != "" && suffix[0] == '.'
    ensures EndsWith("*" + tail, suffix) <==> EndsWith(tail, suffix)
  {
    if |suffix| <= |tail| {
      DropFirst(tail, |tail| - |suffix|);
    } else {
      EndsWithAll("*" + tail, suffix);
    }
  }

  lemma CoversTransitive(s: string, p: string, q: string)
    requires IsPattern(p) && IsPattern(q) && Covers(s, p) && Covers(p, q)
    ensures Covers(s, q)
  {
    if q != "*" && !IsName(q) && !IsName(p) {
      assert p == "*" + p[1..];
      DottedSuffix(p[1..], q[1..]);
      if p != "*" {
        EndsWithTransitive(s, p[1..], q[1..]);
      }
    }
  }

  /** Text matching is transitive, so what a matched pattern matches its matcher matches too. */
  lemma GlobTransitive(s: string, p: string, q: string)
    requires IsPattern(p) && IsPattern(q) && Glob(s, p) && Glob(p, q)
    ensures Glob(s, q)
  {
    GlobMeaning(s, p);
    GlobMeaning(p, q);
    GlobMeaning(s, q);
    CoversTransitive(s, p, q);
  }

  // ---- a host that decides which patterns contain a given one ----

  function As(n: nat): (s: string)
    ensures |s| == n && forall i :: 0 <= i < n ==> s[i] == 'a'
  {
    seq(n, _ => 'a')
  }

  /** A host matched by `p` with more than `n` leading letters unless `p` is a plain name. */
  function Witness(p: string, n: nat): (h: string)
    requires IsPattern(p)
    ensures Glob(h, p) && IsHost(h)
  {
    GlobMeaning(p, p);
    if p == "*" then
      GlobMeaning(As(n + 1), p);
      As(n + 1)
    else if IsName(p) then p
    else
      var h := As(n + 1) + p[1..];
      WitnessIsHost(p[2..], n);
      GlobMeaning(h, p);
      h
  }

  lemma WitnessIsHost(name: string, n: nat)
    requires IsName(name)
    ensures IsHost(As(n + 1) + ("." + name))
  {
    var tail := "." + name;
    var h := As(n + 1) + tail;
    assert h[|h| - 1] == name[|name| - 1];
    forall i, j | 0 <= i < j < |h| && h[i] == '.' && h[j] == '.' ensures j != i + 1 {
      assert n < i && h[j] == name[j - (n + 2)];
      assert i > n + 1 ==> h[i] == name[i - (n + 2)];
    }
  }

  lemma DottedSuffixOfAs(n: nat, tail: string, suffix: string)
    requires suffix != "" && suffix[0] == '.' && |suffix| <= n
    requires EndsWith(As(n + 1) + tail, suffix)
    ensures EndsWith(tail, suffix)
  {
    var h := As(n + 1) + tail;
    var cut := |h| - |suffix|;
    assert h[cut..][0] == '.';
    assert h[cut] == '.';
    assert cut > n;
    assert h[cut..] == tail[cut - (n + 1)..];
  }

  lemma WitnessCovered(p: string, q: string, n: nat)
    requires IsPattern(p) && IsPattern(q) && |q| <= n && !IsName(p)
    requires Covers(As(n + 1) + p[1..], q)
    ensures Covers(p, q)
  {
    if q != "*" {
      assert !IsName(q);
      assert p == "*" + p[1..];
      DottedSuffixOfAs(n, p[1..], q[1..]);
      DottedSuffix(p[1..], q[1..]);
    }
  }

  /** A pattern no longer than `n` that matches the witness of `p` matches `p` itself. */
  lemma WitnessDecides(p: string, q: string, n: nat)
    requires IsPattern(p) && IsPattern(q) && |q| <= n
    requires Glob(Witness(p, n), q)
    ensures Glob(p, q)
  {
    var h := Witness(p, n);
    GlobMeaning(h, q);
    GlobMeaning(p, q);
    if !IsName(p) {
      assert h == As(n + 1) + p[1..];
      WitnessCovered(p, q, n);
    }
  }

  /** Matching the text of `p` against `q` decides inclusion of the hosts they stand for. */
  lemma PatternInclusion(p: string, q: string)
    requires IsPattern(p) && IsPattern(q)
    ensures Glob(p, q) <==> forall h :: IsHost(h) && Glob(h, p) ==> Glob(h, q)
  {
    if Glob(p, q) {
      forall h | IsHost(h) && Glob(h, p) ensures Glob(h, q) {
        GlobTransitive(h, p, q);
      }
    } else {
      var h := Witness(p, |q|);
      if Glob(h, q) {
        WitnessDecides(p, q, |q|);
      }
      assert IsHost(h) && Glob(h, p) && !Glob(h, q);
    }
  }

  /** Two patterns share a host exactly when one of them matches the text of the other. */
  lemma PatternOverlap(p: string, q: string)
    requires IsPattern(p) && IsPattern(q)
    ensures Glob(p, q) || Glob(q, p) <==> exists h :: IsHost(h) && Glob(h, p) && Glob(h, q)
  {
    if Glob(p, q) {
      GlobTransitive(Witness(p, 0), p, q);
    } else if Glob(q, p) {
      GlobTransitive(Witness(q, 0), q, p);
    }
    forall h | IsHost(h) && Glob(h, p) && Glob(h, q) ensures Glob(p, q) || Glob(q, p) {
      Laminar(h, p, q);
    }
  }

  lemma CoversLaminar(h: string, p: string, q: string)
    requires IsPattern(p) && IsPattern(q) && Covers(h, p) && Covers(h, q) && |p| <= |q|
    ensures Covers(q, p) || Covers(p, q)
  {
    if p != "*" && !IsName(p) && q != "*" && !IsName(q) {
      EndsWithNested(h, q[1..], p[1..]);
      assert q == "*" + q[1..];
      DottedSuffix(q[1..], p[1..]);
    }
  }

  lemma Laminar(h: string, p: string, q: string)
    requires IsPattern(p) && IsPattern(q) && Glob(h, p) && Glob(h, q)
    ensures Glob(p, q) || Glob(q, p)
  {
    GlobMeaning(h, p);
    GlobMeaning(h, q);
    GlobMeaning(p, q);
    GlobMeaning(q, p);
    if |p| <= |q| {
      CoversLaminar(h, p, q);
    } else {
      CoversLaminar(h, q, p);
    }
  }

  // ---- Authority ----

  predicate ValidAuthority(a: Authority) {
    forall p | p in a.hosts :: IsPattern(p)
  }

  /** The concrete hosts an Authority grants. */
  predicate Grants(a: Authority, h: string) {
    exists p | p in a.hosts :: Glob(h, p)
  }

  predicate HostsWithin(hosts: seq<string>, ceiling: seq<string>) {
    forall h | h in hosts :: exists p | p in ceiling :: Glob(h, p)
  }

  /** `Authority.within`. */
  predicate Within(a: Authority, ceiling: Authority) {
    && HostsWithin(a.hosts, ceiling.hosts)
    && a.credentials <= ceiling.credentials
    && (!a.externalWrites || ceiling.externalWrites)
    && (!a.externalWrites || !ceiling.operationApproval || a.operationApproval)
    && (!a.externalWrites || !ceiling.duplicatePrevention || a.duplicatePrevention)
  }

  function Longest(patterns: seq<string>): (n: nat)
    ensures forall p :: p in patterns ==> |p| <= n
  {
    if patterns == [] then 0
    else
      var rest := Longest(patterns[1..]);
      assert patterns == [patterns[0]] + patterns[1..];
      if |patterns[0]| > rest then |patterns[0]| else rest
  }

  /** The host part of `within` decides whether every granted host is granted by the ceiling,
      even where the ceiling lists several patterns. */
  lemma HostsWithinMeaning(a: Authority, ceiling: Authority)
    requires ValidAuthority(a) && ValidAuthority(ceiling)
    ensures HostsWithin(a.hosts, ceiling.hosts) <==>
              forall h :: IsHost(h) && Grants(a, h) ==> Grants(ceiling, h)
  {
    if HostsWithin(a.hosts, ceiling.hosts) {
      forall h | IsHost(h) && Grants(a, h) ensures Grants(ceiling, h) {
        var p :| p in a.hosts && Glob(h, p);
        var q :| q in ceiling.hosts && Glob(p, q);
        GlobTransitive(h, p, q);
      }
    }
    if forall h :: IsHost(h) && Grants(a, h) ==> Grants(ceiling, h) {
      forall p | p in a.hosts ensures exists q | q in ceiling.hosts :: Glob(p, q) {
        var n := Longest(ceiling.hosts);
        var h := Witness(p, n);
        assert Grants(a, h);
        var q :| q in ceiling.hosts && Glob(h, q);
        WitnessDecides(p, q, n);
      }
    }
  }

  lemma WithinReflexive(a: Authority)
    requires ValidAuthority(a)
    ensures Within(a, a)
  {
    forall p | p in a.hosts ensures Glob(p, p) {
      GlobMeaning(p, p);
    }
  }

  lemma WithinTransitive(a: Authority, b: Authority, c: Authority)
    requires ValidAuthority(a) && ValidAuthority(b) && ValidAuthority(c)
    requires Within(a, b) && Within(b, c)
    ensures Within(a, c)
  {
    HostsWithinMeaning(a, b);
    HostsWithinMeaning(b, c);
    HostsWithinMeaning(a, c);
  }
}
