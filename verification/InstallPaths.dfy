/** Lexical paths of an installation: normal forms, containment, and what may be removed. */
module InstallPaths {
  import opened Wrappers

  datatype Prefix = Drive(letter: char) | Share(server: string, share: string)

  datatype Component = PrefixPart(prefix: Prefix) | RootDir | CurDir | ParentDir | Normal(name: string)

  type Path = seq<Component>

  datatype PathError = Empty | Relative | EscapesRoot

  // ----- Normalisation -----

  /** `PathBuf::pop`: there is a parent only below a root or a prefix. */
  function Popped(path: Path): Option<Path> {
    if path == [] || path[|path| - 1].RootDir? || path[|path| - 1].PrefixPart? then None
    else Some(path[..|path| - 1])
  }

  /** One component more. */
  function Pushed(normalized: Path, c: Component): Result<Path, PathError> {
    match c
    case CurDir => Ok(normalized)
    case ParentDir =>
      (match Popped(normalized)
       case None => Err(EscapesRoot)
       case Some(parent) => Ok(parent))
    case _ => Ok(normalized + [c])
  }

  function Resolved(normalized: Path, rest: Path): Result<Path, PathError>
    decreases |rest|
  {
    if rest == [] then Ok(normalized)
    else match Pushed(normalized, rest[0])
      case Err(e) => Err(e)
      case Ok(next) => Resolved(next, rest[1..])
  }

  function Normalized(path: Path): Result<Path, PathError> {
    Resolved([], path)
  }

  method NormalizeLexically(path: Path) returns (r: Result<Path, PathError>)
    ensures r == Normalized(path)
  {
    var normalized: Path := [];
    for i := 0 to |path|
      invariant Resolved(normalized, path[i..]) == Normalized(path)
    {
      assert path[i..][1..] == path[i + 1..];
      match path[i]
      case CurDir =>
      case ParentDir =>
        var parent := Popped(normalized);
        if parent.None? {
          return Err(EscapesRoot);
        }
        normalized := parent.value;
      case other =>
        normalized := normalized + [other];
    }
    r := Ok(normalized);
  }

  /** Nothing left to resolve. */
  predicate IsNormal(path: Path) {
    forall i :: 0 <= i < |path| ==> !path[i].CurDir? && !path[i].ParentDir?
  }

  /** A drive or share, its root, and then anything but prefixes and roots: what an absolute path consists of. */
  predicate IsAbsolute(path: Path) {
    |path| >= 2 && path[0].PrefixPart? && path[1].RootDir?
    && forall i :: 2 <= i < |path| ==> !path[i].PrefixPart? && !path[i].RootDir?
  }

  lemma {:induction false} ResolvedAppend(start: Path, a: Path, b: Path)
    requires Resolved(start, a).Ok?
    ensures Resolved(start, a + b) == Resolved(Resolved(start, a).value, b)
    decreases |a|
  {
    if a == [] {
      assert a + b == b;
    } else {
      assert (a + b)[0] == a[0] && (a + b)[1..] == a[1..] + b;
      ResolvedAppend(Pushed(start, a[0]).value, a[1..], b);
    }
  }

  lemma {:induction false} ResolvedIsNormal(start: Path, rest: Path)
    requires IsNormal(start) && Resolved(start, rest).Ok?
    ensures IsNormal(Resolved(start, rest).value)
    decreases |rest|
  {
    if rest != [] {
      ResolvedIsNormal(Pushed(start, rest[0]).value, rest[1..]);
    }
  }

  lemma {:induction false} NormalResolvesToItself(start: Path, rest: Path)
    requires IsNormal(rest)
    ensures Resolved(start, rest) == Ok(start + rest)
    decreases |rest|
  {
    if rest == [] {
      assert start + rest == start;
    } else {
      NormalResolvesToItself(start + [rest[0]], rest[1..]);
      assert start + [rest[0]] + rest[1..] == start + rest;
    }
  }

  /** A normalised path has no `.` or `..`, and normalising it again changes nothing. */
  lemma NormalizedIsStable(path: Path)
    requires Normalized(path).Ok?
    ensures IsNormal(Normalized(path).value)
    ensures Normalized(Normalized(path).value) == Normalized(path)
  {
    ResolvedIsNormal([], path);
    NormalResolvesToItself([], Normalized(path).value);
    assert [] + Normalized(path).value == Normalized(path).value;
  }

  /** `.` means nothing, and a name followed by `..` means nothing, wherever they stand. */
  lemma DotsMeanNothing(a: Path, name: string, b: Path)
    requires Normalized(a).Ok?
    ensures Normalized(a + [CurDir] + b) == Normalized(a + b)
    ensures Normalized(a + [Normal(name), ParentDir] + b) == Normalized(a + b)
  {
    var start := Normalized(a).value;
    ResolvedAppend([], a, b);
    assert a + [CurDir] + b == a + ([CurDir] + b);
    ResolvedAppend([], a, [CurDir] + b);
    assert ([CurDir] + b)[1..] == b;
    assert a + [Normal(name), ParentDir] + b == a + ([Normal(name), ParentDir] + b);
    ResolvedAppend([], a, [Normal(name), ParentDir] + b);
    var up := [Normal(name), ParentDir] + b;
    assert up[1..] == [ParentDir] + b && up[1..][1..] == b;
    assert (start + [Normal(name)])[..|start|] == start;
  }

  /** How far below its root a path ends. */
  function Depth(body: Path): int {
    if body == [] then 0
    else Depth(body[..|body| - 1])
         + match body[|body| - 1] { case Normal(_) => 1 case ParentDir => -1 case _ => 0 }
  }

  /** Some prefix of the path has more `..` than names below the root. */
  ghost predicate Escapes(path: Path)
    requires |path| >= 2
  {
    exists k :: 2 <= k <= |path| && Depth(path[2..k]) < 0
  }

  lemma EscapesStep(init: Path, last: Component)
    requires |init| >= 2
    ensures Escapes(init + [last]) <==> Escapes(init) || Depth((init + [last])[2..]) < 0
  {
    var path := init + [last];
    assert forall k :: 2 <= k <= |init| ==> init[2..k] == path[2..k];
    assert path[2..|path|] == path[2..];
    if Escapes(init) {
      var k :| 2 <= k <= |init| && Depth(init[2..k]) < 0;
      assert Depth(path[2..k]) < 0;
    }
  }

  lemma DepthStep(init: Path, last: Component)
    requires |init| >= 2
    ensures Depth((init + [last])[2..]) ==
      Depth(init[2..]) + match last { case Normal(_) => 1 case ParentDir => -1 case _ => 0 }
  {
    var body := (init + [last])[2..];
    assert body[..|body| - 1] == init[2..];
  }

  /** An absolute path escapes its root if and only if some prefix of it has more `..` than names. */
  lemma {:induction false} EscapesIffDepthNegative(path: Path)
    requires IsAbsolute(path)
    ensures Normalized(path).Err? <==> Escapes(path)
    ensures Normalized(path).Err? ==> Normalized(path).error == EscapesRoot
    ensures Normalized(path).Ok? ==>
      IsAbsolute(Normalized(path).value) && |Normalized(path).value| == 2 + Depth(path[2..])
      && Normalized(path).value[..2] == path[..2]
    decreases |path|
  {
    if |path| == 2 {
      NormalResolvesToItself([], path);
      assert [] + path == path;
      assert path[2..2] == [];
    } else {
      var init, last := path[..|path| - 1], path[|path| - 1];
      assert path == init + [last];
      EscapesIffDepthNegative(init);
      EscapesStep(init, last);
      DepthStep(init, last);
      hide Escapes, Depth;
      if Normalized(init).Ok? {
        ResolvedAppend([], init, [last]);
        ResolvedOne(Normalized(init).value, last);
        LastComponent(init, last);
      } else {
        ErrorStays([], init, [last]);
      }
    }
  }

  lemma ResolvedOne(start: Path, last: Component)
    ensures Resolved(start, [last]) == Pushed(start, last)
  {
    assert [last][1..] == [];
  }

  lemma {:induction false} ErrorStays(start: Path, a: Path, b: Path)
    requires Resolved(start, a).Err?
    ensures Resolved(start, a + b) == Resolved(start, a)
    decreases |a|
  {
    assert (a + b)[0] == a[0] && (a + b)[1..] == a[1..] + b;
    if Pushed(start, a[0]).Ok? {
      ErrorStays(Pushed(start, a[0]).value, a[1..], b);
    }
  }

  lemma LastComponent(init: Path, last: Component)
    requires Normalized(init).Ok? && IsAbsolute(Normalized(init).value) && !last.PrefixPart? && !last.RootDir?
    ensures var start := Normalized(init).value;
      Pushed(start, last).Err? <==> last.ParentDir? && |start| == 2
  {
    ResolvedIsNormal([], init);
  }
}
