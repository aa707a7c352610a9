/**
  The member check and write phase of an integration archive. A member name is its parts and the
  number of trailing slashes; names compare both exactly and under case folding.
 */
module ArchivePaths {
  import opened Limits

  const MAX_EXTRACT_BYTES := 64 * 1024 * 1024
  const MAX_FILE_BYTES := 8 * 1024 * 1024
  const MAX_NAME := 500

  type Path = seq<string>

  /** `regular`: stored or deflated, unencrypted, and its mode agrees with its name. */
  datatype Member = Member(parts: Path, slashes: nat, regular: bool, size: nat, content: int) {
    predicate IsDir() { slashes > 0 }
  }

  // ----- Names -----

  /** Case folding of the permitted characters. */
  function FoldChar(c: char): char {
    if 'A' <= c <= 'Z' then c - 'A' + 'a' else c
  }

  function FoldPart(s: string): string {
    seq(|s|, i requires 0 <= i < |s| => FoldChar(s[i]))
  }

  function Fold(p: Path): (f: Path)
    ensures |f| == |p|
  {
    seq(|p|, i requires 0 <= i < |p| => FoldPart(p[i]))
  }

  predicate SafeChar(c: char) {
    'A' <= c <= 'Z' || 'a' <= c <= 'z' || '0' <= c <= '9' || c == '_' || c == '.' || c == '-'
  }

  predicate SafePart(s: string) {
    s != "" && s != "." && s != ".." && s != "__pycache__" && forall i | 0 <= i < |s| :: SafeChar(s[i])
  }

  predicate EndsWith(s: string, suffix: string) {
    |suffix| <= |s| && s[|s| - |suffix|..] == suffix
  }

  function JoinedLength(p: Path): nat {
    if p == [] then 0 else |p[0]| + 1 + JoinedLength(p[1..])
  }

  predicate SafeName(m: Member) {
    && m.parts != [] && (forall i | 0 <= i < |m.parts| :: SafePart(m.parts[i]))
    && (m.slashes == 0 ==> !EndsWith(m.parts[|m.parts| - 1], ".pyc") && !EndsWith(m.parts[|m.parts| - 1], ".pyo"))
    && JoinedLength(m.parts) + m.slashes <= MAX_NAME + 1
  }

  function Root(domain: string): Path { ["custom_components", domain] }

  /** The two directories above the integration, which may be listed. */
  predicate Above(m: Member, domain: string) {
    m.slashes == 1 && (m.parts == ["custom_components"] || m.parts == Root(domain))
  }

  predicate Inside(m: Member, domain: string) {
    |m.parts| >= 2 && m.parts[..2] == Root(domain) && (|m.parts| > 2 || m.slashes > 1)
  }

  function Relative(m: Member): Path
    requires |m.parts| >= 2
  {
    m.parts[2..]
  }

  /** A member on its own. */
  predicate Admissible(m: Member, domain: string) {
    m.regular && m.size <= MAX_FILE_BYTES && SafeName(m) && (Above(m, domain) || Inside(m, domain))
  }

  /** No two spellings of one folded path among all listed and implied paths of two members. */
  predicate SameSpelling(p: Path, q: Path) {
    forall n | 0 < n <= |p| && n <= |q| && Fold(p[..n]) == Fold(q[..n]) :: p[..n] == q[..n]
  }

  /** The file `f` lies where `m` needs a directory. */
  predicate Blocks(f: Member, m: Member, domain: string) {
    && Inside(f, domain) && Inside(m, domain) && !f.IsDir()
    && |f.parts| < |m.parts| && Fold(f.parts) == Fold(m.parts[..|f.parts|])
  }

  predicate Compatible(a: Member, b: Member, domain: string) {
    && SameSpelling(a.parts, b.parts) && Fold(a.parts) != Fold(b.parts)
    && !Blocks(a, b, domain) && !Blocks(b, a, domain)
  }

  predicate AllAdmissible(members: seq<Member>, domain: string) {
    forall i | 0 <= i < |members| :: Admissible(members[i], domain)
  }

  predicate AllCompatible(members: seq<Member>, domain: string) {
    forall i, j | 0 <= i < j < |members| :: Compatible(members[i], members[j], domain)
  }

  function Extracted(members: seq<Member>, domain: string): seq<Member> {
    if members == [] then []
    else
      var last := members[|members| - 1];
      Extracted(members[..|members| - 1], domain) + (if Above(last, domain) then [] else [last])
  }

  function TotalSize(members: seq<Member>): nat {
    if members == [] then 0 else TotalSize(members[..|members| - 1]) + members[|members| - 1].size
  }

  predicate HasFile(members: seq<Member>, name: string) {
    exists i :: 0 <= i < |members| && !members[i].IsDir() && |members[i].parts| >= 2 && Relative(members[i]) == [name]
  }

  /** What every round of the member loop lets through. */
  predicate Passes(members: seq<Member>, domain: string) {
    && AllAdmissible(members, domain) && AllCompatible(members, domain)
    && TotalSize(Extracted(members, domain)) <= MAX_EXTRACT_BYTES
  }

  /** Exactly what the member check accepts. */
  predicate Acceptable(members: seq<Member>, domain: string) {
    && 0 < |members| <= MAX_FILES && Passes(members, domain)
    && HasFile(Extracted(members, domain), "manifest.json") && HasFile(Extracted(members, domain), "__init__.py")
  }

  // ----- Lemmas about folding -----

  /** In an accepted archive case folding is injective over files, directories and implied parents. */
  lemma FoldingIsInjective(members: seq<Member>, domain: string, i: nat, j: nat, a: nat, b: nat)
    requires Acceptable(members, domain) && i < |members| && j < |members|
    requires 0 < a <= |members[i].parts| && 0 < b <= |members[j].parts|
    requires Fold(members[i].parts[..a]) == Fold(members[j].parts[..b])
    ensures members[i].parts[..a] == members[j].parts[..b]
  {
    assert a == b;
    if i < j {
      assert Compatible(members[i], members[j], domain);
    } else if j < i {
      assert Compatible(members[j], members[i], domain);
    }
  }

  lemma PrefixClashes(f: Member, m: Member, domain: string)
    requires Admissible(f, domain) && Admissible(m, domain) && !f.IsDir() && f.parts <= m.parts
    ensures !Compatible(f, m, domain) && !Compatible(m, f, domain)
  {
    assert m.parts[..|f.parts|] == f.parts;
    assert |f.parts| == |m.parts| ==> f.parts == m.parts;
    assert f.parts[..2] == m.parts[..2];
  }

  /** In an accepted archive no file is an ancestor of, or the same path as, another member. */
  lemma NoFileAbove(members: seq<Member>, domain: string, i: nat, j: nat)
    requires Acceptable(members, domain) && i < |members| && j < |members| && i != j && !members[i].IsDir()
    ensures !(members[i].parts <= members[j].parts)
  {
    assert Compatible(members[if i < j then i else j], members[if i < j then j else i], domain);
    if members[i].parts <= members[j].parts {
      PrefixClashes(members[i], members[j], domain);
    }
  }

  // ----- The member loop -----

  /** `aliases` knows the one spelling of every path listed or implied so far. */
  ghost predicate Knows(aliases: map<Path, Path>, members: seq<Member>) {
    && (forall k | k in aliases :: exists i, n :: Spells(members, i, n, k, aliases[k]))
    && (forall i, n | 0 <= i < |members| && 0 < n <= |members[i].parts| ::
          var p := members[i].parts[..n]; Fold(p) in aliases && aliases[Fold(p)] == p)
  }

  predicate Spells(members: seq<Member>, i: int, n: int, key: Path, path: Path) {
    0 <= i < |members| && 0 < n <= |members[i].parts| && path == members[i].parts[..n] && key == Fold(path)
  }

  predicate Fits(aliases: map<Path, Path>, p: Path) {
    Fold(p) in aliases ==> aliases[Fold(p)] == p
  }

  /** `k` is the folded form of one of the first `n` paths of a member, outermost first. */
  predicate Spelled(path: Path, n: nat, k: Path)
    requires n <= |path|
  {
    0 < |k| <= n && k == Fold(path[..|k|])
  }

  /** The spellings known after the first `n` paths of a member. */
  ghost predicate Noted(aliases: map<Path, Path>, path: Path, n: nat, noted: map<Path, Path>)
    requires n <= |path|
  {
    && (forall k :: k in noted <==> k in aliases || Spelled(path, n, k))
    && (forall k | k in noted :: noted[k] == if Spelled(path, n, k) then path[..|k|] else aliases[k])
  }

  lemma NotedGrows(aliases: map<Path, Path>, path: Path, n: nat, noted: map<Path, Path>)
    requires n < |path| && Noted(aliases, path, n, noted)
    ensures Noted(aliases, path, n + 1, noted[Fold(path[..n + 1]) := path[..n + 1]])
    ensures Fits(aliases, path[..n + 1]) <==> Fits(noted, path[..n + 1])
  {
    var key := Fold(path[..n + 1]);
    assert |key| == n + 1;
    forall k
      ensures Spelled(path, n + 1, k) <==> Spelled(path, n, k) || k == key
    {
    }
  }

  /** The paths of one member, outermost first. */
  method NoteAliases(aliases: map<Path, Path>, path: Path) returns (ok: bool, noted: map<Path, Path>)
    ensures ok <==> forall n | 0 < n <= |path| :: Fits(aliases, path[..n])
    ensures ok ==> Noted(aliases, path, |path|, noted)
  {
    noted := aliases;
    ok := true;
    var n := 0;
    while ok && n < |path|
      invariant n <= |path| && forall m | 0 < m <= n :: Fits(aliases, path[..m])
      invariant ok ==> Noted(aliases, path, n, noted)
      invariant !ok ==> n < |path| && !Fits(aliases, path[..n + 1])
      decreases |path| - n, ok
    {
      NotedGrows(aliases, path, n, noted);
      var part := path[..n + 1];
      var key := Fold(part);
      if key in noted && noted[key] != part {
        ok := false;
      } else {
        noted, n := noted[key := part], n + 1;
      }
    }
  }

  function Seen(members: seq<Member>): set<Path> {
    if members == [] then {} else Seen(members[..|members| - 1]) + {Fold(members[|members| - 1].parts)}
  }

  /** The folded proper prefixes of a relative path that are shorter than `n`. */
  function Parents(relative: Path, n: nat): set<Path>
    requires n <= |relative|
  {
    if n <= 1 then {} else Parents(relative, n - 1) + {Fold(relative[..n - 1])}
  }

  function Files(members: seq<Member>, domain: string): set<Path> {
    if members == [] then {}
    else
      var last := members[|members| - 1];
      Files(members[..|members| - 1], domain) + if Inside(last, domain) && !last.IsDir() then {Fold(Relative(last))}
      else {}
  }

  function Directories(members: seq<Member>, domain: string): set<Path> {
    if members == [] then {}
    else
      var last := members[|members| - 1];
      Directories(members[..|members| - 1], domain)
      + (if Inside(last, domain) then Parents(Relative(last), |Relative(last)|) else {})
      + (if Inside(last, domain) && last.IsDir() then {Fold(Relative(last))} else {})
  }

  lemma {:induction false} InParents(relative: Path, n: nat, k: Path)
    requires n <= |relative|
    ensures k in Parents(relative, n) <==> 0 < |k| < n && k == Fold(relative[..|k|])
  {
    if n > 1 { InParents(relative, n - 1, k); }
  }

  lemma {:induction false} InSeen(members: seq<Member>, k: Path)
    ensures k in Seen(members) <==> exists i :: 0 <= i < |members| && Fold(members[i].parts) == k
  {
    if members != [] {
      var init := members[..|members| - 1];
      InSeen(init, k);
      assert forall i | 0 <= i < |init| :: init[i] == members[i];
    }
  }

  predicate IsFileKey(m: Member, domain: string, k: Path) {
    Inside(m, domain) && !m.IsDir() && Fold(Relative(m)) == k
  }

  predicate IsDirKey(m: Member, domain: string, k: Path) {
    Inside(m, domain)
    && ((m.IsDir() && Fold(Relative(m)) == k) || (0 < |k| < |Relative(m)| && k == Fold(Relative(m)[..|k|])))
  }

  lemma {:induction false} InFiles(members: seq<Member>, domain: string, k: Path)
    ensures k in Files(members, domain) <==> exists i :: 0 <= i < |members| && IsFileKey(members[i], domain, k)
  {
    if members != [] {
      var init := members[..|members| - 1];
      InFiles(init, domain, k);
      assert forall i | 0 <= i < |init| :: init[i] == members[i];
    }
  }

  lemma {:induction false} InDirectories(members: seq<Member>, domain: string, k: Path)
    ensures k in Directories(members, domain) <==> exists i :: 0 <= i < |members| && IsDirKey(members[i], domain, k)
  {
    if members != [] {
      var init := members[..|members| - 1];
      var last := members[|members| - 1];
      InDirectories(init, domain, k);
      if Inside(last, domain) { InParents(Relative(last), |Relative(last)|, k); }
      assert forall i | 0 <= i < |init| :: init[i] == members[i];
    }
  }

  /** Below the same root, whole and relative paths fold alike. */
  lemma RelativeFold(a: Member, b: Member, domain: string, n: nat)
    requires Inside(a, domain) && Inside(b, domain) && 2 <= n <= |a.parts| && n <= |b.parts|
    ensures Fold(a.parts[..n]) == Fold(b.parts[..n]) <==> Fold(Relative(a)[..n - 2]) == Fold(Relative(b)[..n - 2])
  {
    var x, y := Fold(a.parts[..n]), Fold(b.parts[..n]);
    var u, v := Fold(Relative(a)[..n - 2]), Fold(Relative(b)[..n - 2]);
    assert x[2..] == u && y[2..] == v;
    assert x[..2] == Fold(Root(domain)) && y[..2] == Fold(Root(domain)) by {
      assert a.parts[..n][..2] == Root(domain) && b.parts[..n][..2] == Root(domain);
    }
    assert x == x[..2] + x[2..] && y == y[..2] + y[2..];
  }

  lemma BlocksByKeys(f: Member, m: Member, domain: string)
    requires Inside(f, domain) && Inside(m, domain)
    ensures Blocks(f, m, domain) <==> !f.IsDir() && Fold(Relative(f)) in Parents(Relative(m), |Relative(m)|)
  {
    InParents(Relative(m), |Relative(m)|, Fold(Relative(f)));
    assert f.parts[..|f.parts|] == f.parts && Relative(f)[..|Relative(f)|] == Relative(f);
    if |f.parts| < |m.parts| { RelativeFold(f, m, domain, |f.parts|); }
    assert !f.IsDir() ==> |Relative(f)| > 0;
  }

  /** What the sets of the loop let through is exactly what fits every earlier member. */
  ghost predicate Free(members: seq<Member>, m: Member, domain: string) {
    && Fold(m.parts) !in Seen(members)
    && (Inside(m, domain) ==>
          && (forall k | k in Parents(Relative(m), |Relative(m)|) :: k !in Files(members, domain))
          && (m.IsDir() || Fold(Relative(m)) !in Directories(members, domain)))
  }

  lemma FreeIsCompatible(members: seq<Member>, m: Member, domain: string, aliases: map<Path, Path>, i: nat)
    requires Knows(aliases, members) && i < |members| && Free(members, m, domain)
    requires forall n | 0 < n <= |m.parts| :: Fits(aliases, m.parts[..n])
    ensures Compatible(members[i], m, domain)
  {
    var e := members[i];
    forall n | 0 < n <= |e.parts| && n <= |m.parts| && Fold(e.parts[..n]) == Fold(m.parts[..n])
      ensures e.parts[..n] == m.parts[..n]
    {
      assert Fits(aliases, m.parts[..n]);
    }
    InSeen(members, Fold(m.parts));
    if Inside(e, domain) && Inside(m, domain) {
      BlocksByKeys(e, m, domain);
      InFiles(members, domain, Fold(Relative(e)));
      BlocksByKeys(m, e, domain);
      InDirectories(members, domain, Fold(Relative(m)));
      InParents(Relative(e), |Relative(e)|, Fold(Relative(m)));
      assert Blocks(e, m, domain) ==> IsFileKey(members[i], domain, Fold(Relative(e)));
      assert Blocks(m, e, domain) ==> IsDirKey(members[i], domain, Fold(Relative(m)));
    }
  }

  lemma CompatibleFits(members: seq<Member>, m: Member, domain: string, aliases: map<Path, Path>, n: nat)
    requires Knows(aliases, members) && 0 < n <= |m.parts|
    requires forall i | 0 <= i < |members| :: Compatible(members[i], m, domain)
    ensures Fits(aliases, m.parts[..n])
  {
    var p := m.parts[..n];
    if Fold(p) in aliases {
      var i, k :| Spells(members, i, k, Fold(p), aliases[Fold(p)]);
      assert Compatible(members[i], m, domain) && k == n;
      assert members[i].parts[..n] == p;
    }
  }

  lemma CompatibleIsFree(members: seq<Member>, m: Member, domain: string)
    requires forall i | 0 <= i < |members| :: Compatible(members[i], m, domain)
    ensures Free(members, m, domain)
  {
    InSeen(members, Fold(m.parts));
    if Inside(m, domain) {
      forall k | k in Parents(Relative(m), |Relative(m)|)
        ensures k !in Files(members, domain)
      {
        InFiles(members, domain, k);
        forall i | 0 <= i < |members|
          ensures !IsFileKey(members[i], domain, k)
        {
          if Inside(members[i], domain) { BlocksByKeys(members[i], m, domain); }
        }
      }
      var key := Fold(Relative(m));
      InDirectories(members, domain, key);
      forall i | 0 <= i < |members| && !m.IsDir()
        ensures !IsDirKey(members[i], domain, key)
      {
        NotADirectory(members[i], m, domain);
      }
    }
  }

  lemma NotADirectory(e: Member, m: Member, domain: string)
    requires Inside(m, domain) && !m.IsDir() && Compatible(e, m, domain)
    ensures !IsDirKey(e, domain, Fold(Relative(m)))
  {
    if Inside(e, domain) {
      BlocksByKeys(m, e, domain);
      InParents(Relative(e), |Relative(e)|, Fold(Relative(m)));
      if |e.parts| == |m.parts| {
        RelativeFold(e, m, domain, |m.parts|);
        assert e.parts[..|m.parts|] == e.parts && m.parts[..|m.parts|] == m.parts;
        assert Relative(e)[..|Relative(m)|] == Relative(e) && Relative(m)[..|Relative(m)|] == Relative(m);
      }
    }
  }

  lemma KnowsMore(aliases: map<Path, Path>, members: seq<Member>, m: Member, noted: map<Path, Path>)
    requires Knows(aliases, members) && forall n | 0 < n <= |m.parts| :: Fits(aliases, m.parts[..n])
    requires Noted(aliases, m.parts, |m.parts|, noted)
    ensures Knows(noted, members + [m])
  {
    var more := members + [m];
    forall k | k in noted
      ensures exists i, n :: Spells(more, i, n, k, noted[k])
    {
      if Spelled(m.parts, |m.parts|, k) {
        assert Spells(more, |members|, |k|, k, noted[k]);
      } else {
        var i, n :| Spells(members, i, n, k, aliases[k]);
        assert Spells(more, i, n, k, noted[k]);
      }
    }
    forall i, n | 0 <= i < |more| && 0 < n <= |more[i].parts|
      ensures var p := more[i].parts[..n]; Fold(p) in noted && noted[Fold(p)] == p
    {
      var p := more[i].parts[..n];
      if i < |members| {
        assert p == members[i].parts[..n] && Fold(p) in aliases && aliases[Fold(p)] == p;
        assert n <= |m.parts| ==> Fits(aliases, m.parts[..n]);
      }
    }
  }

  lemma OneMore(members: seq<Member>, n: nat, domain: string)
    requires n < |members|
    ensures members[..n + 1] == members[..n] + [members[n]]
    ensures members[..n + 1][..n] == members[..n] && members[..n + 1][n] == members[n]
    ensures AllAdmissible(members[..n], domain) && Admissible(members[n], domain) <==>
              AllAdmissible(members[..n + 1], domain)
    ensures AllCompatible(members[..n], domain)
            && (forall i | 0 <= i < n :: Compatible(members[..n][i], members[n], domain))
            <==> AllCompatible(members[..n + 1], domain)
  {
    var a, b := members[..n], members[..n + 1];
    assert forall i | 0 <= i < n :: a[i] == b[i];
    assert b[n] == members[n];
  }

  lemma PrefixAcceptable(members: seq<Member>, n: nat, domain: string)
    requires n <= |members| && AllAdmissible(members, domain) && AllCompatible(members, domain)
    ensures AllAdmissible(members[..n], domain) && AllCompatible(members[..n], domain)
    ensures TotalSize(Extracted(members[..n], domain)) <= TotalSize(Extracted(members, domain))
    decreases |members| - n
  {
    assert forall i | 0 <= i < n :: members[..n][i] == members[i];
    if n == |members| {
      assert members[..n] == members;
    } else {
      PrefixAcceptable(members, n + 1, domain);
      OneMore(members, n, domain);
      ExtractedGrows(members[..n], members[n], domain);
    }
  }

  lemma ExtractedGrows(members: seq<Member>, m: Member, domain: string)
    ensures Extracted(members + [m], domain) == Extracted(members, domain) + (if Above(m, domain) then [] else [m])
    ensures TotalSize(Extracted(members + [m], domain)) ==
              TotalSize(Extracted(members, domain)) + (if Above(m, domain) then 0 else m.size)
  {
    assert (members + [m])[..|members|] == members;
    var e := Extracted(members, domain);
    assert (e + [m])[..|e|] == e && e + [] == e;
  }

  lemma CompatibleIff(members: seq<Member>, m: Member, domain: string, aliases: map<Path, Path>)
    requires Knows(aliases, members)
    ensures (forall n | 0 < n <= |m.parts| :: Fits(aliases, m.parts[..n])) && Free(members, m, domain)
            <==> forall i | 0 <= i < |members| :: Compatible(members[i], m, domain)
  {
    if forall i | 0 <= i < |members| :: Compatible(members[i], m, domain) {
      CompatibleIsFree(members, m, domain);
      forall n | 0 < n <= |m.parts|
        ensures Fits(aliases, m.parts[..n])
      {
        CompatibleFits(members, m, domain, aliases, n);
      }
    } else if (forall n | 0 < n <= |m.parts| :: Fits(aliases, m.parts[..n])) && Free(members, m, domain) {
      forall i | 0 <= i < |members|
        ensures Compatible(members[i], m, domain)
      {
        FreeIsCompatible(members, m, domain, aliases, i);
      }
    }
  }

  /** Where a member lies, against the sets of the loop. */
  method CheckPlace(ghost members: seq<Member>, m: Member, domain: string, seen: set<Path>, files: set<Path>,
                    directories: set<Path>)
    returns (ok: bool, seen': set<Path>, files': set<Path>, directories': set<Path>)
    requires seen == Seen(members) && files == Files(members, domain) && directories == Directories(members, domain)
    ensures ok <==> (Above(m, domain) || Inside(m, domain)) && Free(members, m, domain)
    ensures ok ==> seen' == Seen(members + [m])
    ensures ok ==> files' == Files(members + [m], domain) && directories' == Directories(members + [m], domain)
  {
    ok, seen', files', directories' := false, seen, files, directories;
    assert (members + [m])[..|members|] == members;
    if Fold(m.parts) in seen { return; }
    seen' := seen + {Fold(m.parts)};
    if Above(m, domain) { return true, seen', files', directories'; }
    if !Inside(m, domain) { return; }
    var relative := Relative(m);
    var parents := Parents(relative, |relative|);
    if parents * files != {} {
      assert exists k :: k in parents * files;
      return;
    }
    if !m.IsDir() && Fold(relative) in directories { return; }
    directories' := directories + parents + if m.IsDir() then {Fold(relative)} else {};
    files' := files + if m.IsDir() then {} else {Fold(relative)};
    ok := true;
  }

  /** The checks of one member. */
  method CheckMember(ghost members: seq<Member>, m: Member, domain: string, aliases: map<Path, Path>, seen: set<Path>,
                     files: set<Path>, directories: set<Path>)
    returns (ok: bool, noted: map<Path, Path>, seen': set<Path>, files': set<Path>, directories': set<Path>)
    requires Knows(aliases, members) && seen == Seen(members)
    requires files == Files(members, domain) && directories == Directories(members, domain)
    ensures ok <==> Admissible(m, domain) && forall i | 0 <= i < |members| :: Compatible(members[i], m, domain)
    ensures ok ==> Knows(noted, members + [m]) && seen' == Seen(members + [m])
    ensures ok ==> files' == Files(members + [m], domain) && directories' == Directories(members + [m], domain)
  {
    ok, noted, seen', files', directories' := false, aliases, seen, files, directories;
    if !m.regular || m.size > MAX_FILE_BYTES || !SafeName(m) { return; }
    CompatibleIff(members, m, domain, aliases);
    ok, noted := NoteAliases(aliases, m.parts);
    if !ok { return; }
    KnowsMore(aliases, members, m, noted);
    ok, seen', files', directories' := CheckPlace(members, m, domain, seen, files, directories);
  }

  /** What the loop holds after some members. */
  datatype Progress = Progress(aliases: map<Path, Path>, seen: set<Path>, files: set<Path>, directories: set<Path>,
                               extracted: seq<Member>, total: int)

  ghost predicate Tracks(p: Progress, members: seq<Member>, domain: string) {
    && AllAdmissible(members, domain) && AllCompatible(members, domain)
    && Knows(p.aliases, members) && p.seen == Seen(members)
    && p.files == Files(members, domain) && p.directories == Directories(members, domain)
    && p.extracted == Extracted(members, domain) && p.total == TotalSize(p.extracted) <= MAX_EXTRACT_BYTES
  }

  /** One round of the loop. */
  method NextMember(p: Progress, ghost members: seq<Member>, m: Member, domain: string) returns (ok: bool, q: Progress)
    requires Tracks(p, members, domain)
    ensures ok ==> Tracks(q, members + [m], domain)
    ensures !ok ==> !Passes(members + [m], domain)
  {
    q := p;
    OneMore(members + [m], |members|, domain);
    assert (members + [m])[..|members|] == members && (members + [m])[..|members| + 1] == members + [m];
    ExtractedGrows(members, m, domain);
    var noted: map<Path, Path>, seen: set<Path>, files: set<Path>, directories: set<Path>;
    ok, noted, seen, files, directories := CheckMember(members, m, domain, p.aliases, p.seen, p.files, p.directories);
    if !ok { return; }
    var total := p.total + if Above(m, domain) then 0 else m.size;
    if total > MAX_EXTRACT_BYTES { return false, p; }
    q := Progress(noted, seen, files, directories, p.extracted + if Above(m, domain) then [] else [m], total);
  }

  /** All rounds of the loop. */
  method CheckMembers(members: seq<Member>, domain: string) returns (ok: bool, extracted: seq<Member>)
    ensures ok <==> Passes(members, domain)
    ensures ok ==> extracted == Extracted(members, domain)
  {
    var p := Progress(map[], {}, {}, {}, [], 0);
    for n := 0 to |members|
      invariant Tracks(p, members[..n], domain)
    {
      assert members[..n + 1] == members[..n] + [members[n]];
      ok, p := NextMember(p, members[..n], members[n], domain);
      if !ok {
        if Passes(members, domain) { PrefixAcceptable(members, n + 1, domain); }
        return false, [];
      }
    }
    assert members[..|members|] == members;
    ok, extracted := true, p.extracted;
  }

  /** The member check: it accepts exactly the acceptable archives and collects what to write. */
  method CheckArchive(members: seq<Member>, domain: string) returns (ok: bool, extracted: seq<Member>)
    ensures ok <==> Acceptable(members, domain)
    ensures ok ==> extracted == Extracted(members, domain)
  {
    if members == [] || |members| > MAX_FILES { return false, []; }
    ok, extracted := CheckMembers(members, domain);
    if !ok { return; }
    ok := HasFile(extracted, "manifest.json") && HasFile(extracted, "__init__.py");
  }

  // ----- The write phase -----

  /** The stage directory: its files and directories by the key under which the file system finds a
      name; a file system may or may not tell apart names that fold alike. */
  datatype Tree = Tree(files: map<Path, int>, dirs: set<Path>)

  function Key(p: Path, folds: bool): Path { if folds then Fold(p) else p }

  predicate WritesFile(m: Member, k: Path, folds: bool) {
    |m.parts| >= 2 && !m.IsDir() && Key(Relative(m), folds) == k
  }

  /** `m` is the directory `k`, or implies it. */
  predicate MakesDir(m: Member, k: Path, folds: bool) {
    |m.parts| >= 2
    && 0 < |k| <= |Relative(m)| && (|k| < |Relative(m)| || m.IsDir()) && k == Key(Relative(m)[..|k|], folds)
  }

  lemma AppendCompatible(members: seq<Member>, m: Member, domain: string)
    requires AllCompatible(members, domain)
    requires forall i | 0 <= i < |members| :: Compatible(members[i], m, domain)
    ensures AllCompatible(members + [m], domain)
  {
    var all := members + [m];
    forall i, j | 0 <= i < j < |all|
      ensures Compatible(all[i], all[j], domain)
    {
      assert all[i] == members[i] && (j < |members| ==> all[j] == members[j]);
    }
  }

  lemma {:induction false} ExtractedMembers(members: seq<Member>, domain: string)
    requires AllAdmissible(members, domain)
    ensures forall m | m in Extracted(members, domain) :: m in members && Inside(m, domain) && Admissible(m, domain)
  {
    if members != [] {
      var n := |members| - 1;
      ExtractedMembers(members[..n], domain);
      assert Admissible(members[n], domain);
    }
  }

  lemma CompatibleWithLast(members: seq<Member>, m: Member, domain: string)
    requires members != [] && AllCompatible(members, domain) && m in members[..|members| - 1]
    ensures Compatible(m, members[|members| - 1], domain)
  {
    var j :| 0 <= j < |members| - 1 && members[j] == m;
  }

  lemma {:induction false} ExtractedFits(members: seq<Member>, domain: string)
    requires AllAdmissible(members, domain) && AllCompatible(members, domain)
    ensures AllCompatible(Extracted(members, domain), domain)
    ensures forall m | m in Extracted(members, domain) :: m in members && Inside(m, domain) && Admissible(m, domain)
  {
    ExtractedMembers(members, domain);
    if members != [] {
      var n := |members| - 1;
      PrefixAcceptable(members, n, domain);
      ExtractedFits(members[..n], domain);
      var e := Extracted(members[..n], domain);
      forall i | 0 <= i < |e|
        ensures Compatible(e[i], members[n], domain)
      {
        CompatibleWithLast(members, e[i], domain);
      }
      AppendCompatible(e, members[n], domain);
    }
  }

  lemma KeyFolds(p: Path, q: Path, folds: bool)
    requires Key(p, folds) == Key(q, folds)
    ensures Fold(p) == Fold(q) && |p| == |q|
  {
    assert |Fold(p)| == |p| && |Fold(q)| == |q|;
  }

  /** A file of an earlier member never stands where a later one needs a directory or a file, nor the
      other way round. */
  lemma NoCollision(a: Member, b: Member, domain: string, k: Path, folds: bool)
    requires Inside(a, domain) && Inside(b, domain) && (Compatible(a, b, domain) || Compatible(b, a, domain))
    ensures !(WritesFile(a, k, folds) && (MakesDir(b, k, folds) || WritesFile(b, k, folds)))
  {
    if WritesFile(a, k, folds) && (MakesDir(b, k, folds) || WritesFile(b, k, folds)) {
      assert Relative(b)[..|Relative(b)|] == Relative(b) && Relative(a)[..|Relative(a)|] == Relative(a);
      KeyFolds(Relative(a), Relative(b)[..|Relative(a)|], folds);
      assert a.parts[..|a.parts|] == a.parts && b.parts[..|b.parts|] == b.parts;
      RelativeFold(a, b, domain, |a.parts|);
    }
  }

  /** `mkdir` with parents: fails only when a file stands in the way. */
  method MakeDirs(tree: Tree, relative: Path, depth: nat, folds: bool) returns (ok: bool, made: Tree)
    requires depth <= |relative|
    ensures ok <==> forall n | 0 < n <= depth :: Key(relative[..n], folds) !in tree.files
    ensures ok ==> made.files == tree.files
    ensures ok ==> forall k :: k in made.dirs <==>
              k in tree.dirs || (0 < |k| <= depth && k == Key(relative[..|k|], folds))
  {
    made := tree;
    for n := 0 to depth
      invariant made.files == tree.files && forall m | 0 < m <= n :: Key(relative[..m], folds) !in tree.files
      invariant forall k :: k in made.dirs <==> k in tree.dirs || (0 < |k| <= n && k == Key(relative[..|k|], folds))
    {
      var key := Key(relative[..n + 1], folds);
      if key in made.files { return false, made; }
      made := made.(dirs := made.dirs + {key});
    }
    ok := true;
  }

  /** One member is written; opening an existing path fails. */
  method WriteMember(tree: Tree, m: Member, folds: bool) returns (ok: bool, written: Tree)
    requires |m.parts| >= 2 && (!m.IsDir() ==> |m.parts| > 2)
    ensures (forall k | k in tree.files :: !MakesDir(m, k, folds) && !WritesFile(m, k, folds)) ==>
              (forall k | k in tree.dirs :: !WritesFile(m, k, folds)) ==> ok
    ensures ok ==> forall k :: k in written.dirs <==> k in tree.dirs || MakesDir(m, k, folds)
    ensures ok ==> written.files == if m.IsDir() then tree.files else tree.files[Key(Relative(m), folds) := m.content]
  {
    var relative := Relative(m);
    ok, written := MakeDirs(tree, relative, if m.IsDir() then |relative| else |relative| - 1, folds);
    if !ok {
      ghost var n :| 0 < n <= (if m.IsDir() then |relative| else |relative| - 1)
        && Key(relative[..n], folds) in tree.files;
      assert MakesDir(m, Key(relative[..n], folds), folds);
      return;
    }
    if m.IsDir() { return; }
    var key := Key(relative, folds);
    assert WritesFile(m, key, folds) && !MakesDir(m, key, folds);
    if key in written.files || key in written.dirs { return false, written; }
    written := written.(files := written.files[key := m.content]);
  }

  /** What the first `n` members leave behind. */
  ghost predicate Holds(tree: Tree, extracted: seq<Member>, n: nat, folds: bool)
    requires n <= |extracted|
  {
    && (forall k :: k in tree.files <==> exists i :: 0 <= i < n && WritesFile(extracted[i], k, folds))
    && (forall i | 0 <= i < n && |extracted[i].parts| >= 2 && !extracted[i].IsDir() ::
          var k := Key(Relative(extracted[i]), folds); k in tree.files && tree.files[k] == extracted[i].content)
    && (forall k :: k in tree.dirs <==> exists i :: 0 <= i < n && MakesDir(extracted[i], k, folds))
  }

  /** The write phase of an accepted archive never fails, on file systems that tell folded names apart
      and on those that do not, and leaves exactly the accepted members and their parents. */
  method WriteAll(members: seq<Member>, extracted: seq<Member>, domain: string, folds: bool)
    returns (ok: bool, tree: Tree)
    requires Acceptable(members, domain) && extracted == Extracted(members, domain)
    ensures ok && Holds(tree, extracted, |extracted|, folds)
  {
    ExtractedFits(members, domain);
    tree := Tree(map[], {});
    for n := 0 to |extracted|
      invariant Holds(tree, extracted, n, folds)
    {
      var m := extracted[n];
      assert m in extracted;
      WontCollide(tree, extracted, n, domain, folds);
      var written: Tree;
      ok, written := WriteMember(tree, m, folds);
      HoldsMore(tree, extracted, n, domain, folds, written);
      tree := written;
    }
    ok := true;
  }

  lemma WontCollide(tree: Tree, extracted: seq<Member>, n: nat, domain: string, folds: bool)
    requires n < |extracted| && AllCompatible(extracted, domain) && (forall m | m in extracted :: Inside(m, domain))
    requires Holds(tree, extracted, n, folds)
    ensures forall k | k in tree.files :: !MakesDir(extracted[n], k, folds) && !WritesFile(extracted[n], k, folds)
    ensures forall k | k in tree.dirs :: !WritesFile(extracted[n], k, folds)
  {
    forall k | k in tree.files
      ensures !MakesDir(extracted[n], k, folds) && !WritesFile(extracted[n], k, folds)
    {
      var i :| 0 <= i < n && WritesFile(extracted[i], k, folds);
      assert Compatible(extracted[i], extracted[n], domain) && extracted[i] in extracted && extracted[n] in extracted;
      NoCollision(extracted[i], extracted[n], domain, k, folds);
    }
    forall k | k in tree.dirs
      ensures !WritesFile(extracted[n], k, folds)
    {
      var i :| 0 <= i < n && MakesDir(extracted[i], k, folds);
      assert Compatible(extracted[i], extracted[n], domain) && extracted[i] in extracted && extracted[n] in extracted;
      NoCollision(extracted[n], extracted[i], domain, k, folds);
    }
  }

  lemma HoldsMore(tree: Tree, extracted: seq<Member>, n: nat, domain: string, folds: bool, written: Tree)
    requires n < |extracted| && Holds(tree, extracted, n, folds) && |extracted[n].parts| >= 2
    requires forall k :: k in written.dirs <==> k in tree.dirs || MakesDir(extracted[n], k, folds)
    requires written.files == if extracted[n].IsDir() then tree.files
             else tree.files[Key(Relative(extracted[n]), folds) := extracted[n].content]
    requires forall k | k in tree.files :: !WritesFile(extracted[n], k, folds)
    ensures Holds(written, extracted, n + 1, folds)
  {
    forall i | 0 <= i < n + 1 && |extracted[i].parts| >= 2 && !extracted[i].IsDir()
      ensures var k := Key(Relative(extracted[i]), folds);
              k in written.files && written.files[k] == extracted[i].content
    {
      var k := Key(Relative(extracted[i]), folds);
      if i < n {
        assert k in tree.files && !WritesFile(extracted[n], k, folds);
      }
    }
  }
}
