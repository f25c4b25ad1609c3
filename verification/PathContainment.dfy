/** When one path lies beneath another, by the text of both with case folded. */
module PathContainment {
  import opened Wrappers
  import opened InstallPaths
  import opened Texts

  const SEPARATOR: char := '\\'

  predicate IsSeparator(ch: char) {
    ch == '\\' || ch == '/'
  }

  // ----- Text and case folding -----

  /** A name between separators. */
  predicate IsPiece(s: string) {
    forall i :: 0 <= i < |s| ==> !IsSeparator(s[i])
  }

  predicate ArePieces(pieces: seq<string>) {
    forall i :: 0 <= i < |pieces| ==> IsPiece(pieces[i])
  }

  /** A normal absolute path whose names are proper names. */
  predicate IsWellFormed(path: Path) {
    IsAbsolute(path) && IsNormal(path) && IsProperPrefix(path[0].prefix)
    && forall i :: 2 <= i < |path| ==> IsPiece(path[i].name) && path[i].name != ""
  }

  predicate IsProperPrefix(p: Prefix) {
    match p
    case Drive(letter) => !IsSeparator(letter)
    case Share(server, share) => IsPiece(server) && IsPiece(share) && server != ""
  }

  /** What stands between the separators of a prefix: `C:`, or `\\server\share` with two empty pieces in front. */
  function PrefixPieces(p: Prefix): seq<string> {
    match p
    case Drive(letter) => [[letter, ':']]
    case Share(server, share) => ["", "", server, share]
  }

  function Names(path: Path, from: nat): (names: seq<string>)
    requires from <= |path| && forall i :: from <= i < |path| ==> path[i].Normal?
    ensures |names| == |path| - from && forall i :: 0 <= i < |names| ==> names[i] == path[from + i].name
  {
    seq(|path| - from, i requires 0 <= i < |path| - from => path[from + i].name)
  }

  lemma NormalParts(path: Path)
    requires IsWellFormed(path)
    ensures forall i :: 2 <= i < |path| ==> path[i].Normal?
  {
  }

  /** The text of a path as pieces: a root with nothing below it ends in a separator. */
  function Pieces(path: Path): seq<string>
    requires IsWellFormed(path)
  {
    NormalParts(path);
    PrefixPieces(path[0].prefix) + (if |path| == 2 then [""] else Names(path, 2))
  }

  function Text(path: Path): string
    requires IsWellFormed(path)
  {
    Joined(Pieces(path), SEPARATOR)
  }

  /** Case folding may lengthen a character, but keeps separators and makes no new ones. */
  ghost predicate IsFold(fold: char -> string) {
    forall ch :: if IsSeparator(ch) then fold(ch) == [ch] else fold(ch) != "" && IsPiece(fold(ch))
  }

  function Folded(fold: char -> string, s: string): string {
    if s == "" then "" else fold(s[0]) + Folded(fold, s[1..])
  }

  function FoldedAll(fold: char -> string, pieces: seq<string>): (r: seq<string>)
    ensures |r| == |pieces| && forall i :: 0 <= i < |r| ==> r[i] == Folded(fold, pieces[i])
  {
    seq(|pieces|, i requires 0 <= i < |pieces| => Folded(fold, pieces[i]))
  }

  lemma {:induction false} FoldedAppend(fold: char -> string, a: string, b: string)
    ensures Folded(fold, a + b) == Folded(fold, a) + Folded(fold, b)
    decreases |a|
  {
    if a == "" {
      assert a + b == b;
    } else {
      assert (a + b)[0] == a[0] && (a + b)[1..] == a[1..] + b;
      FoldedAppend(fold, a[1..], b);
    }
  }

  lemma {:induction false} FoldedPiece(fold: char -> string, s: string)
    requires IsFold(fold) && IsPiece(s)
    ensures IsPiece(Folded(fold, s)) && (Folded(fold, s) == "" <==> s == "")
  {
    if s != "" {
      FoldedPiece(fold, s[1..]);
    }
  }

  /** Folding the text is folding the pieces. */
  lemma {:induction false} FoldedJoined(fold: char -> string, pieces: seq<string>)
    requires IsFold(fold)
    ensures Folded(fold, Joined(pieces, SEPARATOR)) == Joined(FoldedAll(fold, pieces), SEPARATOR)
    decreases |pieces|
  {
    if |pieces| > 1 {
      FoldedAppend(fold, pieces[0] + [SEPARATOR], Joined(pieces[1..], SEPARATOR));
      FoldedAppend(fold, pieces[0], [SEPARATOR]);
      assert [SEPARATOR][1..] == "" && fold(SEPARATOR) == [SEPARATOR];
      FoldedJoined(fold, pieces[1..]);
      assert FoldedAll(fold, pieces)[1..] == FoldedAll(fold, pieces[1..]);
    }
  }

  // ----- The test -----

  /** `path_starts_with_case_insensitive` on the two texts, with both folded. */
  predicate TextStartsWith(path: string, base: string) {
    path == base || (base <= path && |base| < |path| && IsSeparator(path[|base|]))
  }

  /** The test the program makes: on the components themselves, or on the folded texts. */
  predicate StartsWith(fold: char -> string, path: Path, base: Path)
    requires IsWellFormed(path) && IsWellFormed(base)
  {
    base <= path || TextStartsWith(Folded(fold, Text(path)), Folded(fold, Text(base)))
  }

  /** Folded, the pieces of the base are the first pieces of the path. */
  predicate IsBeneath(fold: char -> string, path: Path, base: Path)
    requires IsWellFormed(path) && IsWellFormed(base)
  {
    FoldedAll(fold, Pieces(base)) <= FoldedAll(fold, Pieces(path))
  }

  /** A joined text goes on after its first piece with a separator, or ends. */
  lemma FirstPiece(a: seq<string>, b: seq<string>)
    requires ArePieces(a) && ArePieces(b) && a != [] && b != []
    requires Joined(a, SEPARATOR) <= Joined(b, SEPARATOR)
    requires |Joined(a, SEPARATOR)| < |Joined(b, SEPARATOR)| ==>
      IsSeparator(Joined(b, SEPARATOR)[|Joined(a, SEPARATOR)|])
    ensures a[0] == b[0]
    ensures |a| > 1 ==> |b| > 1 && TextStartsWith(Joined(b[1..], SEPARATOR), Joined(a[1..], SEPARATOR))
  {
    var s, t, n, m := Joined(a, SEPARATOR), Joined(b, SEPARATOR), |a[0]|, |b[0]|;
    assert forall i :: 0 <= i < n ==> s[i] == a[0][i];
    assert forall i :: 0 <= i < m ==> t[i] == b[0][i];
    assert |a| > 1 ==> s[n] == SEPARATOR;
    assert |b| > 1 ==> t[m] == SEPARATOR;
    assert n == m;
    assert a[0] == s[..n] == t[..n] == b[0];
    if |a| > 1 {
      assert |b| > 1;
      assert s[n + 1..] == Joined(a[1..], SEPARATOR) && t[n + 1..] == Joined(b[1..], SEPARATOR);
    }
  }

  /** For texts joined from pieces, the text test is the prefix test on the pieces. */
  lemma {:induction false} TextTestIsPieceTest(a: seq<string>, b: seq<string>)
    requires ArePieces(a) && ArePieces(b) && a != [] && b != []
    ensures TextStartsWith(Joined(b, SEPARATOR), Joined(a, SEPARATOR)) <==> a <= b
    decreases |a|
  {
    if TextStartsWith(Joined(b, SEPARATOR), Joined(a, SEPARATOR)) {
      FirstPiece(a, b);
      if |a| > 1 {
        TextTestIsPieceTest(a[1..], b[1..]);
        assert a == [a[0]] + a[1..] && b == [b[0]] + b[1..];
      }
    }
    if a <= b {
      PrefixJoins(a, b);
    }
  }

  lemma {:induction false} PrefixJoins(a: seq<string>, b: seq<string>)
    requires a != [] && a <= b
    ensures TextStartsWith(Joined(b, SEPARATOR), Joined(a, SEPARATOR))
    decreases |a|
  {
    if |a| > 1 {
      PrefixJoins(a[1..], b[1..]);
      var s, t, lead := Joined(a[1..], SEPARATOR), Joined(b[1..], SEPARATOR), a[0] + [SEPARATOR];
      assert Joined(a, SEPARATOR) == lead + s && Joined(b, SEPARATOR) == lead + t;
    } else if |b| > 1 {
      assert Joined(b, SEPARATOR) == a[0] + [SEPARATOR] + Joined(b[1..], SEPARATOR);
    }
  }

  lemma PiecesArePieces(fold: char -> string, path: Path)
    requires IsFold(fold) && IsWellFormed(path)
    ensures ArePieces(FoldedAll(fold, Pieces(path))) && Pieces(path) != []
  {
    NormalParts(path);
    var pieces := Pieces(path);
    forall i | 0 <= i < |pieces|
      ensures IsPiece(FoldedAll(fold, pieces)[i])
    {
      FoldedPiece(fold, pieces[i]);
    }
  }

  /** Pieces of a path below another's root extend the other's. */
  lemma PrefixGivesPieces(path: Path, base: Path)
    requires IsWellFormed(path) && IsWellFormed(base) && |base| > 2 && base <= path
    ensures Pieces(base) <= Pieces(path)
  {
    NormalParts(path);
    NormalParts(base);
  }

  /**
   * For normal paths and a base that is not a root, the program's test holds if and only if the folded
   * components of the base are the first folded components of the path.
   */
  lemma ContainmentIsComponentwise(fold: char -> string, path: Path, base: Path)
    requires IsFold(fold) && IsWellFormed(path) && IsWellFormed(base) && |base| > 2
    ensures StartsWith(fold, path, base) <==> IsBeneath(fold, path, base)
  {
    FoldedJoined(fold, Pieces(path));
    FoldedJoined(fold, Pieces(base));
    PiecesArePieces(fold, path);
    PiecesArePieces(fold, base);
    TextTestIsPieceTest(FoldedAll(fold, Pieces(base)), FoldedAll(fold, Pieces(path)));
    if base <= path {
      PrefixGivesPieces(path, base);
      assert FoldedAll(fold, Pieces(base)) <= FoldedAll(fold, Pieces(path));
    }
  }

  /** The pieces of the prefixes match: both are drives, or both are shares. */
  lemma BeneathSharesPrefix(fold: char -> string, path: Path, base: Path)
    requires IsFold(fold) && IsWellFormed(path) && IsWellFormed(base) && IsBeneath(fold, path, base)
    ensures path[0].prefix.Drive? == base[0].prefix.Drive?
    ensures FoldedAll(fold, PrefixPieces(path[0].prefix)) == FoldedAll(fold, PrefixPieces(base[0].prefix))
  {
    var a, b := Pieces(base), Pieces(path);
    var p, q := PrefixPieces(base[0].prefix), PrefixPieces(path[0].prefix);
    assert a[..|p|] == p && b[..|q|] == q;
    assert FoldedAll(fold, a)[0] == FoldedAll(fold, b)[0];
    FoldedPiece(fold, a[0]);
    FoldedPiece(fold, b[0]);
    forall i | 0 <= i < |p|
      ensures Folded(fold, p[i]) == Folded(fold, q[i])
    {
      assert FoldedAll(fold, a)[i] == FoldedAll(fold, b)[i];
      assert a[i] == p[i] && b[i] == q[i];
    }
  }

  /** Spelled out: the same folded drive or share, and the base's folded names one by one. */
  lemma BeneathMeansNames(fold: char -> string, path: Path, base: Path)
    requires IsFold(fold) && IsWellFormed(path) && IsWellFormed(base) && |base| > 2 && IsBeneath(fold, path, base)
    ensures |base| <= |path| && path[0].prefix.Drive? == base[0].prefix.Drive?
    ensures FoldedAll(fold, PrefixPieces(path[0].prefix)) == FoldedAll(fold, PrefixPieces(base[0].prefix))
    ensures forall i :: 2 <= i < |base| ==> Folded(fold, base[i].name) == Folded(fold, path[i].name)
  {
    BeneathSharesPrefix(fold, path, base);
    hide IsFold, Folded, Joined;
    var n := |PrefixPieces(base[0].prefix)|;
    assert n == |PrefixPieces(path[0].prefix)|;
    hide PrefixPieces, IsProperPrefix;
    NamesBeneath(fold, path, base, n);
  }

  lemma NamesBeneath(fold: char -> string, path: Path, base: Path, n: nat)
    requires IsFold(fold) && IsWellFormed(path) && IsWellFormed(base) && |base| > 2 && IsBeneath(fold, path, base)
    requires n == |PrefixPieces(base[0].prefix)| == |PrefixPieces(path[0].prefix)|
    ensures |base| <= |path|
    ensures forall i :: 2 <= i < |base| ==> Folded(fold, base[i].name) == Folded(fold, path[i].name)
  {
    hide PrefixPieces, IsProperPrefix;
    var a, b := FoldedAll(fold, Pieces(base)), FoldedAll(fold, Pieces(path));
    assert a[n] == b[n];
    FoldedPiece(fold, base[2].name);
    hide IsFold, Folded;
    EmptyFolds(fold);
    assert b[n] == Folded(fold, Pieces(path)[n]);
    assert |path| > 2;
    forall i | 2 <= i < |base|
      ensures Folded(fold, base[i].name) == Folded(fold, path[i].name)
    {
      assert a[n + i - 2] == b[n + i - 2];
    }
  }

  lemma EmptyFolds(fold: char -> string)
    ensures Folded(fold, "") == ""
  {
  }

  // ----- Removing an installation -----

  datatype RemovalError = BadRoot(PathError) | RootTooHigh | NotDedicated | Reserved
    | ConfigOutside | DataOutside | BadExecutable(PathError) | ExecutableOutside

  function NormalizedRequired(path: Path): Result<Path, PathError> {
    if path == [] then Err(Empty)
    else if !(|path| >= 2 && path[0].PrefixPart? && path[1].RootDir?) then Err(Relative)
    else Normalized(path)
  }

  /**
   * A required path must be given, absolute, and stay below its root; it is then absolute without dots, on the same
   * drive or share.  Components come from the operating system, so prefixes and roots stand in front only.
   */
  lemma RequiredPathsAreAbsolute(path: Path)
    requires forall i :: 2 <= i < |path| ==> !path[i].PrefixPart? && !path[i].RootDir?
    ensures match NormalizedRequired(path)
      case Err(Empty) => path == []
      case Err(Relative) => path != [] && !IsAbsolute(path)
      case Err(EscapesRoot) => IsAbsolute(path) && Escapes(path)
      case Ok(root) =>
        IsAbsolute(path) && !Escapes(path) && IsAbsolute(root) && IsNormal(root) && root[..2] == path[..2]
  {
    if IsAbsolute(path) {
      EscapesIffDepthNegative(path);
      if Normalized(path).Ok? {
        NormalizedIsStable(path);
      }
    }
  }

  /** ASCII case does not matter in the directory's own name. */
  predicate IsDedicatedName(name: string) {
    |name| == 7 && forall i :: 0 <= i < 7 ==> name[i] == "dbgflow"[i] || name[i] == "DBGFLOW"[i]
  }

  /** The directory's own name reads `DBGFLOW` in upper case, and no other name does. */
  lemma DedicatedNameIgnoresCase(name: string)
    ensures IsDedicatedName(name) <==> Upper(name) == "DBGFLOW"
  {
    if |name| == 7 {
      forall i | 0 <= i < 7
        ensures name[i] == "dbgflow"[i] || name[i] == "DBGFLOW"[i] <==> Upper(name)[i] == "DBGFLOW"[i]
      {
        LetterIgnoresCase(name[i], "dbgflow"[i]);
      }
    }
  }

  lemma LetterIgnoresCase(ch: char, letter: char)
    requires 'a' <= letter <= 'z'
    ensures UpperChar(ch) == UpperChar(letter) <==> ch == letter || ch == UpperChar(letter)
  {
    if 'a' <= ch <= 'z' {
      assert UpperChar(ch) as int == ch as int - 32;
    }
    assert UpperChar(letter) as int == letter as int - 32;
  }

  /** `reserved` stands for the comparisons with the profile and system directories. */
  function CheckedRoot(root: Path, reserved: Path -> bool): Result<(), RemovalError> {
    if |root| <= 2 then Err(RootTooHigh)
    else if !root[|root| - 1].Normal? || !IsDedicatedName(root[|root| - 1].name) then Err(NotDedicated)
    else if reserved(root) then Err(Reserved)
    else Ok(())
  }

  /** The paths whose components the operating system can hand out. */
  predicate IsReadable(path: Path) {
    Normalized(path).Ok? && path != [] && |path| >= 2 && path[0].PrefixPart? && path[1].RootDir? ==>
      IsWellFormed(Normalized(path).value)
  }

  /** The installed executable, if there is one, lies beneath the root. */
  predicate HoldsExecutable(fold: char -> string, root: Path, executable: Option<Path>)
    requires IsWellFormed(root) && (executable.Some? ==> IsReadable(executable.value))
  {
    executable.Some? ==>
      && NormalizedRequired(executable.value).Ok?
      && IsBeneath(fold, NormalizedRequired(executable.value).value, root)
  }

  /**
   * What may be removed: a directory below a root, named `dbgflow` in any ASCII case, not reserved, with the
   * configuration, the data and the installed executable beneath it. The first condition missed is the refusal.
   */
  method ValidateInstallRootRemoval(fold: char -> string, reserved: Path -> bool,
                                    installRoot: Path, config: Path, dataDir: Path, executable: Option<Path>)
    returns (r: Result<Path, RemovalError>)
    requires IsFold(fold) && IsReadable(installRoot) && (executable.Some? ==> IsReadable(executable.value))
    requires IsWellFormed(config) && IsWellFormed(dataDir)
    ensures match NormalizedRequired(installRoot)
      case Err(e) => r == Err(BadRoot(e))
      case Ok(root) =>
        var below := |root| > 2;
        var named := below && root[|root| - 1].Normal? && Upper(root[|root| - 1].name) == "DBGFLOW";
        var free := named && !reserved(root);
        var holdsConfig := free && IsBeneath(fold, config, root);
        var holdsData := holdsConfig && IsBeneath(fold, dataDir, root);
        match r
        case Ok(value) => value == root && holdsData && HoldsExecutable(fold, root, executable)
        case Err(RootTooHigh) => !below
        case Err(NotDedicated) => below && !named
        case Err(Reserved) => named && reserved(root)
        case Err(ConfigOutside) => free && !holdsConfig
        case Err(DataOutside) => holdsConfig && !holdsData
        case Err(BadExecutable(e)) => holdsData && executable.Some? && NormalizedRequired(executable.value) == Err(e)
        case Err(ExecutableOutside) =>
          holdsData && executable.Some? && NormalizedRequired(executable.value).Ok?
          && !HoldsExecutable(fold, root, executable)
        case Err(BadRoot(_)) => false
  {
    var root := NormalizedRequired(installRoot);
    if root.Err? {
      return Err(BadRoot(root.error));
    }
    if |root.value| > 2 && root.value[|root.value| - 1].Normal? {
      DedicatedNameIgnoresCase(root.value[|root.value| - 1].name);
    }
    var checked := CheckedRoot(root.value, reserved);
    if checked.Err? {
      return Err(checked.error);
    }
    ContainmentIsComponentwise(fold, config, root.value);
    if !StartsWith(fold, config, root.value) {
      return Err(ConfigOutside);
    }
    ContainmentIsComponentwise(fold, dataDir, root.value);
    if !StartsWith(fold, dataDir, root.value) {
      return Err(DataOutside);
    }
    if executable.Some? {
      var exe := NormalizedRequired(executable.value);
      if exe.Err? {
        return Err(BadExecutable(exe.error));
      }
      ContainmentIsComponentwise(fold, exe.value, root.value);
      if !StartsWith(fold, exe.value, root.value) {
        return Err(ExecutableOutside);
      }
    }
    r := Ok(root.value);
  }
}
