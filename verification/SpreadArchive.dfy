/**
  An archive that the member check accepts although the tree it unpacks to has more entries than
  `hash_tree` allows: the check counts members, hashing counts implied directories too.
 */
module SpreadArchive {
  import opened ArchivePaths
  import opened Limits

  const DIGITS := "0123456789"

  function Numbered(i: nat): string
    requires i < 1000
  {
    [DIGITS[i / 100], DIGITS[i / 10 % 10], DIGITS[i % 10]]
  }

  lemma DigitsDiffer(a: nat, b: nat)
    requires a < 10 && b < 10 && DIGITS[a] == DIGITS[b]
    ensures a == b
  {
    assert forall k: nat | k < 10 :: DIGITS[k] as int == '0' as int + k by {
      assert DIGITS[0] == '0' && DIGITS[1] == '1' && DIGITS[2] == '2' && DIGITS[3] == '3' && DIGITS[4] == '4';
      assert DIGITS[5] == '5' && DIGITS[6] == '6' && DIGITS[7] == '7' && DIGITS[8] == '8' && DIGITS[9] == '9';
    }
  }

  lemma DigitIsSafe(a: nat)
    requires a < 10
    ensures SafeChar(DIGITS[a]) && FoldChar(DIGITS[a]) == DIGITS[a]
  {
    assert DIGITS[0] == '0' && DIGITS[1] == '1' && DIGITS[2] == '2' && DIGITS[3] == '3' && DIGITS[4] == '4';
    assert DIGITS[5] == '5' && DIGITS[6] == '6' && DIGITS[7] == '7' && DIGITS[8] == '8' && DIGITS[9] == '9';
  }

  /** Characters that folding keeps can be read off the folded string. */
  lemma Unfolds(a: string, b: string, k: nat)
    requires FoldPart(a) == FoldPart(b) && k < |a| && k < |b| && FoldChar(a[k]) == a[k] && FoldChar(b[k]) == b[k]
    ensures a[k] == b[k]
  {
    assert FoldPart(a)[k] == FoldChar(a[k]) && FoldPart(b)[k] == FoldChar(b[k]);
  }

  lemma ThreeDigits(i: nat)
    requires i < 1000
    ensures i == 100 * (i / 100) + 10 * (i / 10 % 10) + i % 10
  {
    assert i / 10 / 10 == i / 100;
  }

  lemma SameDigits(i: nat, j: nat)
    requires i < 1000 && j < 1000 && Numbered(i) == Numbered(j)
    ensures i == j
  {
    var a, b := Numbered(i), Numbered(j);
    assert a[0] == b[0] && a[1] == b[1] && a[2] == b[2];
    DigitsDiffer(i / 100, j / 100);
    DigitsDiffer(i / 10 % 10, j / 10 % 10);
    DigitsDiffer(i % 10, j % 10);
    ThreeDigits(i);
    ThreeDigits(j);
  }

  lemma NumberedDiffer(i: nat, j: nat)
    requires i < 1000 && j < 1000 && FoldPart(Numbered(i)) == FoldPart(Numbered(j))
    ensures i == j
  {
    var a, b := Numbered(i), Numbered(j);
    NumberedIsSafe(i);
    NumberedIsSafe(j);
    Unfolds(a, b, 0);
    Unfolds(a, b, 1);
    Unfolds(a, b, 2);
    assert a == [a[0], a[1], a[2]] && b == [b[0], b[1], b[2]];
    SameDigits(i, j);
  }

  lemma NumberedIsSafe(i: nat)
    requires i < 1000
    ensures SafePart(Numbered(i)) && forall k | 0 <= k < 3 :: FoldChar(Numbered(i)[k]) == Numbered(i)[k]
  {
    DigitIsSafe(i / 100);
    DigitIsSafe(i / 10 % 10);
    DigitIsSafe(i % 10);
  }

  function PlainFile(tail: Path): Member { Member(Root("demo") + tail, 0, true, 0, 0) }

  /** A manifest, an initialiser, and `n` files each in a directory of its own. */
  function Spread(n: nat): seq<Member>
    requires n <= 1000
  {
    if n == 0 then [PlainFile(["manifest.json"]), PlainFile(["__init__.py"])]
    else Spread(n - 1) + [PlainFile([Numbered(n - 1), "f"])]
  }

  predicate Plain(tail: Path) {
    tail == ["manifest.json"] || tail == ["__init__.py"]
    || (|tail| == 2 && |tail[0]| == 3 && SafePart(tail[0]) && tail[1] == "f")
  }

  lemma RootIsSafe()
    ensures SafePart("custom_components") && SafePart("demo") && SafePart("f")
  {
    var c, d := "custom_components", "demo";
    assert c[0] == 'c' && c[1] == 'u' && c[2] == 's' && c[3] == 't' && c[4] == 'o' && c[5] == 'm' && c[6] == '_'
       && c[7] == 'c';
    assert c[8] == 'o' && c[9] == 'm' && c[10] == 'p' && c[11] == 'o' && c[12] == 'n' && c[13] == 'e' && c[14] == 'n'
       && c[15] == 't' && c[16] == 's';
    assert d[0] == 'd' && d[1] == 'e' && d[2] == 'm' && d[3] == 'o';
  }

  lemma RequiredNamesAreSafe()
    ensures SafePart("manifest.json") && !EndsWith("manifest.json", ".pyc") && !EndsWith("manifest.json", ".pyo")
    ensures SafePart("__init__.py") && !EndsWith("__init__.py", ".pyc") && !EndsWith("__init__.py", ".pyo")
  {
    var m, p := "manifest.json", "__init__.py";
    assert m[0] == 'm' && m[1] == 'a' && m[2] == 'n' && m[3] == 'i' && m[4] == 'f' && m[5] == 'e' && m[6] == 's'
       && m[7] == 't';
    assert m[8] == '.' && m[9] == 'j' && m[10] == 's' && m[11] == 'o' && m[12] == 'n';
    assert p[0] == '_' && p[1] == '_' && p[2] == 'i' && p[3] == 'n' && p[4] == 'i' && p[5] == 't' && p[6] == '_'
       && p[7] == '_';
    assert p[8] == '.' && p[9] == 'p' && p[10] == 'y';
    assert m[9..][0] == 'j' && p[7..][0] == '_' && ".pyc"[0] == '.' && ".pyo"[0] == '.';
  }

  lemma PlainIsShort(tail: Path)
    requires Plain(tail)
    ensures JoinedLength(Root("demo") + tail) <= 40
  {
    assert (["demo"] + tail)[1..] == tail;
    assert (Root("demo") + tail)[1..] == ["demo"] + tail;
    assert JoinedLength(tail) <= 14 by {
      assert tail[1..] == if |tail| == 1 then [] else ["f"];
      assert JoinedLength(["f"]) == 2 && JoinedLength([]) == 0;
    }
  }

  lemma PlainFileIsAdmissible(tail: Path)
    requires Plain(tail)
    ensures Admissible(PlainFile(tail), "demo") && Inside(PlainFile(tail), "demo") && !Above(PlainFile(tail), "demo")
    ensures Relative(PlainFile(tail)) == tail
  {
    RootIsSafe();
    RequiredNamesAreSafe();
    PlainIsShort(tail);
    var parts := Root("demo") + tail;
    assert parts[..2] == Root("demo") && parts[2..] == tail;
  }

  /** Two plain files with different first relative parts, folded, go together. */
  lemma PlainFilesAreCompatible(a: Path, b: Path)
    requires Plain(a) && Plain(b) && FoldPart(a[0]) != FoldPart(b[0])
    ensures Compatible(PlainFile(a), PlainFile(b), "demo")
  {
    var p, q := Root("demo") + a, Root("demo") + b;
    assert p[2] == a[0] && q[2] == b[0];
    forall n | 0 < n <= |p| && n <= |q| && Fold(p[..n]) == Fold(q[..n])
      ensures p[..n] == q[..n]
    {
      if n > 2 {
        ThirdPartsDiffer(p, q, n);
      } else {
        assert p[..n] == Root("demo")[..n] == q[..n];
      }
    }
    ThirdPartsDiffer(p, q, if |p| < |q| then |p| else |q|);
    assert p[..|p|] == p && q[..|q|] == q;
  }

  lemma ThirdPartsDiffer(p: Path, q: Path, n: nat)
    requires 2 < n <= |p| && n <= |q| && FoldPart(p[2]) != FoldPart(q[2])
    ensures Fold(p[..n]) != Fold(q[..n])
  {
    assert Fold(p[..n])[2] == FoldPart(p[2]) && Fold(q[..n])[2] == FoldPart(q[2]);
  }

  lemma {:induction false} SpreadMembers(n: nat, i: nat)
    requires n <= 1000 && i < n + 2
    ensures |Spread(n)| == n + 2
    ensures Spread(n)[i] ==
              PlainFile(if i == 0 then ["manifest.json"] else if i == 1 then ["__init__.py"]
              else [Numbered(i - 2), "f"])
  {
    if n > 0 {
      SpreadMembers(n - 1, if i < n + 1 then i else 0);
    }
  }

  function FirstPart(i: nat): string
    requires i < 1002
  {
    if i == 0 then "manifest.json" else if i == 1 then "__init__.py" else Numbered(i - 2)
  }

  lemma FirstPartsDiffer(i: nat, j: nat)
    requires i < 1002 && j < 1002 && i != j
    ensures FoldPart(FirstPart(i)) != FoldPart(FirstPart(j))
  {
    var a, b := FirstPart(i), FirstPart(j);
    assert |FoldPart(a)| == |a| && |FoldPart(b)| == |b|;
    if i >= 2 && j >= 2 {
      if FoldPart(a) == FoldPart(b) { NumberedDiffer(i - 2, j - 2); }
    } else {
      assert |a| != |b|;
    }
  }

  lemma SpreadIsPlain(n: nat, i: nat) returns (tail: Path)
    requires n <= 1000 && i < n + 2
    ensures |Spread(n)| == n + 2 && Spread(n)[i] == PlainFile(tail) && Plain(tail) && tail[0] == FirstPart(i)
    ensures tail == if i < 2 then [FirstPart(i)] else [FirstPart(i), "f"]
  {
    SpreadMembers(n, i);
    if i >= 2 { NumberedIsSafe(i - 2); }
    tail := if i < 2 then [FirstPart(i)] else [FirstPart(i), "f"];
  }

  lemma {:induction false} AllExtracted(members: seq<Member>)
    requires forall i | 0 <= i < |members| :: !Above(members[i], "demo") && members[i].size == 0
    ensures Extracted(members, "demo") == members && TotalSize(members) == 0
  {
    if members != [] {
      var n := |members| - 1;
      AllExtracted(members[..n]);
      assert members == members[..n] + [members[n]];
    }
  }

  lemma SpreadIsAcceptable(n: nat)
    requires n <= 1000
    ensures Acceptable(Spread(n), "demo")
  {
    var members := Spread(n);
    SpreadMembers(n, 0);
    SpreadMembers(n, 1);
    forall i | 0 <= i < n + 2
      ensures Admissible(members[i], "demo") && !Above(members[i], "demo") && members[i].size == 0
    {
      var tail := SpreadIsPlain(n, i);
      PlainFileIsAdmissible(tail);
    }
    forall i, j | 0 <= i < j < n + 2
      ensures Compatible(members[i], members[j], "demo")
    {
      var a := SpreadIsPlain(n, i);
      var b := SpreadIsPlain(n, j);
      FirstPartsDiffer(i, j);
      PlainFilesAreCompatible(a, b);
    }
    AllExtracted(members);
    PlainFileIsAdmissible(["manifest.json"]);
    PlainFileIsAdmissible(["__init__.py"]);
    assert Relative(members[0]) == ["manifest.json"] && Relative(members[1]) == ["__init__.py"];
  }

  // ----- Counting entries -----

  lemma PlainKeys(tail: Path, k: Path)
    requires Plain(tail)
    ensures IsFileKey(PlainFile(tail), "demo", k) <==> k == Fold(tail)
    ensures IsDirKey(PlainFile(tail), "demo", k) <==> |tail| == 2 && k == Fold(tail[..1])
  {
    PlainFileIsAdmissible(tail);
  }

  lemma AddedEntries(members: seq<Member>, tail: Path)
    requires Plain(tail)
    ensures Files(members + [PlainFile(tail)], "demo") == Files(members, "demo") + {Fold(tail)}
    ensures Directories(members + [PlainFile(tail)], "demo")
            == Directories(members, "demo") + if |tail| == 2 then {Fold(tail[..1])} else {}
  {
    PlainFileIsAdmissible(tail);
    assert (members + [PlainFile(tail)])[..|members|] == members;
    assert |tail| == 2 ==> Parents(tail, 2) == {Fold(tail[..1])} + Parents(tail, 1);
  }

  lemma AddedFile(members: seq<Member>, name: string)
    requires |name| == 3 && SafePart(name)
    ensures Files(members + [PlainFile([name, "f"])], "demo") == Files(members, "demo") + {Fold([name, "f"])}
    ensures Directories(members + [PlainFile([name, "f"])], "demo") == Directories(members, "demo") + {Fold([name])}
  {
    AddedEntries(members, [name, "f"]);
    assert [name, "f"][..1] == [name];
  }

  lemma KeysDiffer(i: nat, j: nat, tail: Path)
    requires i < 1002 && j < 1002 && i != j && tail != [] && tail[0] == FirstPart(i)
    ensures Fold(tail) != Fold([FirstPart(j), "f"]) && Fold(tail) != Fold([FirstPart(j)])
    ensures Fold(tail[..1]) != Fold([FirstPart(j)])
  {
    FirstPartsDiffer(i, j);
    assert Fold(tail)[0] == Fold(tail[..1])[0] == FoldPart(FirstPart(i));
    assert Fold([FirstPart(j), "f"])[0] == Fold([FirstPart(j)])[0] == FoldPart(FirstPart(j));
  }

  lemma NotThere(n: nat, i: nat)
    requires n < 1000 && i < n + 2 && |Spread(n)| == n + 2
    ensures !IsFileKey(Spread(n)[i], "demo", Fold([FirstPart(n + 2), "f"]))
            && !IsDirKey(Spread(n)[i], "demo", Fold([FirstPart(n + 2)]))
  {
    var tail := SpreadIsPlain(n, i);
    PlainKeys(tail, Fold([FirstPart(n + 2), "f"]));
    PlainKeys(tail, Fold([FirstPart(n + 2)]));
    KeysDiffer(i, n + 2, tail);
  }

  /** Neither the next file nor its directory was there before. */
  lemma NewEntries(n: nat)
    requires n < 1000
    ensures Fold([FirstPart(n + 2), "f"]) !in Files(Spread(n), "demo")
    ensures Fold([FirstPart(n + 2)]) !in Directories(Spread(n), "demo")
  {
    var members, file, dir := Spread(n), Fold([FirstPart(n + 2), "f"]), Fold([FirstPart(n + 2)]);
    SpreadMembers(n, 0);
    InFiles(members, "demo", file);
    InDirectories(members, "demo", dir);
    forall i | 0 <= i < |members|
      ensures !IsFileKey(members[i], "demo", file) && !IsDirKey(members[i], "demo", dir)
    {
      NotThere(n, i);
    }
  }

  lemma FirstEntries()
    ensures |Files(Spread(0), "demo")| == 2 && |Directories(Spread(0), "demo")| == 0
  {
    var a, b := PlainFile(["manifest.json"]), PlainFile(["__init__.py"]);
    AddedEntries([], ["manifest.json"]);
    AddedEntries([a], ["__init__.py"]);
    FirstPartsDiffer(0, 1);
    assert Fold(["manifest.json"])[0] != Fold(["__init__.py"])[0];
    assert Spread(0) == [a] + [b] && [] + [a] == [a];
  }

  lemma NextEntries(n: nat)
    requires n < 1000
    ensures Files(Spread(n + 1), "demo") == Files(Spread(n), "demo") + {Fold([FirstPart(n + 2), "f"])}
    ensures Directories(Spread(n + 1), "demo") == Directories(Spread(n), "demo") + {Fold([FirstPart(n + 2)])}
  {
    NumberedIsSafe(n);
    AddedFile(Spread(n), FirstPart(n + 2));
    assert Spread(n + 1) == Spread(n) + [PlainFile([Numbered(n), "f"])];
  }

  lemma OneMoreElement<T>(s: set<T>, x: T)
    requires x !in s
    ensures |s + {x}| == |s| + 1
  {
  }

  /** Each spread file adds a file and a directory of its own. */
  lemma {:induction false} SpreadEntries(n: nat)
    requires n <= 1000
    ensures |Files(Spread(n), "demo")| == n + 2 && |Directories(Spread(n), "demo")| == n
  {
    if n == 0 {
      FirstEntries();
    } else {
      var files, directories := Files(Spread(n - 1), "demo"), Directories(Spread(n - 1), "demo");
      SpreadEntries(n - 1);
      NewEntries(n - 1);
      NextEntries(n - 1);
      OneMoreElement(files, Fold([FirstPart(n + 1), "f"]));
      OneMoreElement(directories, Fold([FirstPart(n + 1)]));
    }
  }

  /** An archive of 1002 members that the loop accepts although its tree has 2002 entries, more than
      `hash_tree` allows: extraction counts members, hashing counts implied directories too. */
  lemma AcceptedArchiveCanExceedTree() returns (members: seq<Member>)
    ensures Acceptable(members, "demo") && |members| == 1002
    ensures |Files(members, "demo")| + |Directories(members, "demo")| == 2002 > MAX_FILES
  {
    members := Spread(1000);
    SpreadMembers(1000, 0);
    SpreadIsAcceptable(1000);
    SpreadEntries(1000);
  }
}
