/**
  Member names as the strings that an archive holds: their parts joined by single slashes, then the trailing
  ones. What the member check demands of the parts is what these strings must satisfy.
 */
module MemberNames {
  import opened ArchivePaths

  function Joined(p: Path): string {
    if p == [] then "" else if |p| == 1 then p[0] else p[0] + "/" + Joined(p[1..])
  }

  function Slashes(n: nat): (s: string)
    ensures |s| == n
  {
    seq(n, _ => '/')
  }

  function NameOf(m: Member): string {
    Joined(m.parts) + Slashes(m.slashes)
  }

  /** The parts of a split name hold no slash. */
  predicate Split(p: Path) {
    p != [] && forall i | 0 <= i < |p| :: '/' !in p[i]
  }

  /** Where a path leads, `.` and `..` resolved. */
  function Resolved(base: Path, p: Path): Path
    decreases |p|
  {
    if p == [] then base
    else if p[0] == "" || p[0] == "." then Resolved(base, p[1..])
    else if p[0] == ".." then Resolved(if base == [] then [] else base[..|base| - 1], p[1..])
    else Resolved(base + [p[0]], p[1..])
  }

  predicate Permitted(c: char) {
    c == '/' || SafeChar(c)
  }

  /** Letters, digits, `-`, `.` and `_` of the ASCII table. */
  lemma SafeCharacters(c: char)
    ensures SafeChar(c) <==> var n := c as int; n in {45, 46, 95} || 48 <= n < 58 || 65 <= n < 91 || 97 <= n < 123
  {
  }

  lemma {:induction false} JoinedSize(p: Path)
    requires p != []
    ensures |Joined(p)| + 1 == JoinedLength(p)
  {
    if |p| > 1 { JoinedSize(p[1..]); } else { assert p[1..] == []; }
  }

  /** A joined name has only permitted characters exactly when its parts have. */
  lemma {:induction false} JoinedCharacters(p: Path)
    requires Split(p)
    ensures (forall c | c in Joined(p) :: Permitted(c)) <==>
              (forall i, k | 0 <= i < |p| && 0 <= k < |p[i]| :: SafeChar(p[i][k]))
  {
    if |p| == 1 {
      PartCharacters(p[0]);
    } else {
      var tail := p[1..];
      JoinedCharacters(tail);
      PartCharacters(p[0]);
      assert forall c :: c in Joined(p) <==> c in p[0] || c == '/' || c in Joined(tail);
      assert p == [p[0]] + tail;
    }
  }

  lemma PartCharacters(s: string)
    requires '/' !in s
    ensures (forall c | c in s :: Permitted(c)) <==> (forall k | 0 <= k < |s| :: SafeChar(s[k]))
  {
    forall k | 0 <= k < |s| ensures s[k] != '/' && s[k] in s { assert s[k] in s; }
    if forall c | c in s :: Permitted(c) {
      forall k | 0 <= k < |s| ensures SafeChar(s[k]) { assert Permitted(s[k]); }
    }
  }

  /** The name ends as its last part does, unless slashes follow; an extension never reaches across a slash. */
  lemma {:induction false} JoinedEnd(p: Path, suffix: string)
    requires Split(p) && '/' !in suffix
    ensures EndsWith(Joined(p), suffix) <==> EndsWith(p[|p| - 1], suffix)
  {
    if |p| > 1 {
      JoinedEnd(p[1..], suffix);
      JoinedSize(p[1..]);
      var n, tail := Joined(p), Joined(p[1..]);
      assert n == (p[0] + "/") + tail;
      if |suffix| <= |tail| {
        assert n[|n| - |suffix|..] == tail[|tail| - |suffix|..];
      } else {
        var k := |suffix| - |tail| - 1;
        assert n[|p[0]|] == '/' && suffix[k] in suffix;
        assert |suffix| <= |n| ==> n[|n| - |suffix|..][k] == n[|p[0]|];
      }
    }
  }

  lemma NameEnd(m: Member, suffix: string)
    requires Split(m.parts) && '/' !in suffix && suffix != ""
    ensures EndsWith(NameOf(m), suffix) <==> m.slashes == 0 && EndsWith(m.parts[|m.parts| - 1], suffix)
  {
    JoinedEnd(m.parts, suffix);
    var n := NameOf(m);
    if m.slashes == 0 {
      assert n == Joined(m.parts);
    } else {
      assert n[|n| - 1] == '/' && suffix[|suffix| - 1] in suffix;
      assert |suffix| <= |n| ==> n[|n| - |suffix|..][|suffix| - 1] == n[|n| - 1];
    }
  }

  /** The member check on a name, as a check on its string. */
  lemma SafeNameIff(m: Member)
    requires Split(m.parts)
    ensures SafeName(m) <==>
              && |NameOf(m)| <= 500 && (forall c | c in NameOf(m) :: Permitted(c))
              && !EndsWith(NameOf(m), ".pyc") && !EndsWith(NameOf(m), ".pyo")
              && (forall i | 0 <= i < |m.parts| :: m.parts[i] !in {"", ".", "..", "__pycache__"})
  {
    JoinedSize(m.parts);
    JoinedCharacters(m.parts);
    NameEnd(m, ".pyc");
    NameEnd(m, ".pyo");
    assert forall c :: c in NameOf(m) <==> c in Joined(m.parts) || (c == '/' && m.slashes > 0) by {
      SlashesOnly(m.slashes);
    }
  }

  lemma SlashesOnly(n: nat)
    ensures forall c :: c in Slashes(n) <==> c == '/' && n > 0
  {
    if n > 0 { assert Slashes(n)[0] == '/'; }
  }

  /** An accepted name leads where it says: nothing in it goes up or stays, so what is unpacked lies under the
      directory of the integration. */
  lemma {:induction false} SafeNameStays(base: Path, p: Path)
    requires forall i | 0 <= i < |p| :: SafePart(p[i])
    ensures Resolved(base, p) == base + p
    decreases |p|
  {
    if p != [] {
      SafeNameStays(base + [p[0]], p[1..]);
      assert base + [p[0]] + p[1..] == base + p;
    }
  }

  lemma AdmittedStaysInside(m: Member, domain: string, base: Path)
    requires Admissible(m, domain) && Inside(m, domain)
    ensures base + Root(domain) <= Resolved(base, m.parts)
    ensures Resolved(base + Root(domain), Relative(m)) == Resolved(base, m.parts)
  {
    SafeNameStays(base, m.parts);
    assert forall k | 0 <= k < |m.parts| - 2 :: Relative(m)[k] == m.parts[k + 2];
    SafeNameStays(base + Root(domain), Relative(m));
    assert m.parts == Root(domain) + Relative(m);
    assert base + m.parts == base + Root(domain) + Relative(m);
  }
}
