/** File::Utils: the parent of a path string, the type of a path, recursive directory creation. */
module FileUtils {
  import opened Text
  import opened FileSystem

  const NPOS: nat := 0x1_0000_0000_0000_0000 - 1

  /** std::string::find_last_of: the last index at or before `pos` that holds `c`. */
  function FindLastOf(s: string, c: char, pos: nat): (r: nat)
    requires |s| < NPOS
    ensures r == NPOS ==> forall k :: 0 <= k < |s| && k <= pos ==> s[k] != c
    ensures r != NPOS ==> r < |s| && r <= pos && s[r] == c && forall k :: r < k < |s| && k <= pos ==> s[k] != c
    decreases if pos < |s| then pos + 1 else |s| + 1
  {
    if s == "" then NPOS
    else if pos >= |s| then FindLastOf(s, c, |s| - 1)
    else if s[pos] == c then pos
    else if pos == 0 then NPOS
    else FindLastOf(s, c, pos - 1)
  }

  /** The size_t subtraction `length - 2`, which wraps around for a path of length 1. */
  function BeforeLast(length: nat): (pos: nat)
    requires 1 <= length < NPOS
    ensures pos == if length == 1 then NPOS else length - 2
  {
    (length - 2) % (NPOS + 1)
  }

  function ParentDir(path: string): string
    requires |path| < NPOS
  {
    if path == "" || path == "/" || path == "//" then ""
    else
      var i := FindLastOf(path, '/', BeforeLast(|path|));
      if i == NPOS then ""
      else if i == 0 then "/"
      else path[..i]
  }

  /** The path ends in two slashes. */
  predicate DoubledEnd(path: string) {
    |path| >= 2 && path[|path| - 1] == '/' && path[|path| - 2] == '/'
  }

  /** No slash follows another; one trailing slash is allowed. */
  predicate Simple(path: string) {
    path != "" && forall k :: 0 <= k < |path| - 1 ==> !(path[k] == '/' && path[k + 1] == '/')
  }

  lemma ParentIsShorter(path: string)
    requires 1 <= |path| < NPOS
    ensures |ParentDir(path)| < |path|
  {
  }

  /** The text between the last slash that counts and the end is one component, or nothing after a doubled slash. */
  lemma LastComponent(name: string)
    requires name != "" && (forall k :: 0 <= k < |name| - 1 ==> name[k] != '/')
    ensures Components(name) == if name == "/" then [] else if EndsWithSlash(name) then [name[..|name| - 1]] else [name]
  {
    if EndsWithSlash(name) {
      var front := name[..|name| - 1];
      assert name == front + ['/'] + "";
      PiecesSplit(front, '/', "", {'/'});
      if front != "" {
        SolidIsOnePiece(front, {'/'});
      }
    } else {
      SolidIsOnePiece(name, {'/'});
    }
  }

  /** A slash separates what is before it from what is after it. */
  lemma ComponentsSplit(path: string, i: nat)
    requires i < |path| && path[i] == '/'
    ensures Components(path) == Components(path[..i]) + Components(path[i + 1..])
  {
    hide Pieces;
    assert path == path[..i] + ['/'] + path[i + 1..];
    PiecesSplit(path[..i], '/', path[i + 1..], {'/'});
  }

  lemma SlashesHaveNoComponents()
    ensures Components("") == [] && Components("/") == [] && Components("//") == []
  {
    EmptyHasNoPieces();
    hide Pieces;
    LastComponent("/");
    ComponentsSplit("//", 0);
    assert "//"[..0] == "" && "//"[1..] == "/";
  }

  lemma EmptyHasNoPieces()
    ensures Pieces("", {'/'}) == []
  {
  }

  /** What follows the last slash that counts: never nothing, and a lone slash exactly after a doubled end. */
  lemma OfLastPart(path: string, i: nat)
    requires i + 2 <= |path| && path[i] == '/' && (forall k :: i < k < |path| - 1 ==> path[k] != '/')
    ensures path[i + 1..] == "/" <==> DoubledEnd(path)
    ensures i > 0 ==> IsAbsolute(path[..i]) == IsAbsolute(path)
    ensures i == 0 ==> path[..i] == ""
  {
  }

  /**
   ParentDir drops exactly the last component - or none, when the path ends in two slashes -
   and fails only for a path without components, or a relative one with a single component.
   */
  lemma ParentComponents(path: string)
    requires 1 <= |path| < NPOS && Components(path) != []
    ensures var parent, comps := ParentDir(path), Components(path);
            if parent == "" then !IsAbsolute(path) && |comps| == 1 && !DoubledEnd(path)
            else IsAbsolute(parent) == IsAbsolute(path) &&
                 Components(parent) == if DoubledEnd(path) then comps else comps[..|comps| - 1]
  {
    var i := FindLastOf(path, '/', BeforeLast(|path|));
    hide Components, FindLastOf;
    SlashesHaveNoComponents();
    if i == NPOS {
      LastComponent(path);
    } else {
      ComponentsSplit(path, i);
      LastComponent(path[i + 1..]);
      OfLastPart(path, i);
    }
  }

  /** File::PathType, less symbolicLink, which a tree without links never yields. */
  datatype PathType = Missing | Invalid | Typed(kind: Kind)

  function GetPathType(kernel: Kernel, path: string): PathType
    reads kernel
  {
    if path == "" then Invalid
    else
      match kernel.Stat(path)
      case Entry(node) => Typed(node.kind)
      case NoEntry => Missing
      case NotDir => Invalid
  }

  /** Two slashes at i that end the path or are followed by a third. */
  predicate GapAt(path: string, i: nat) {
    1 <= i <= |path| - 2 && path[i] == '/' && path[i + 1] == '/' && (i + 2 == |path| || path[i + 2] == '/')
  }

  /** The directories after which the path has such a gap. */
  function Gaps(kernel: Kernel, path: string): set<Path> {
    set i | 1 <= i <= |path| - 2 && GapAt(path, i) :: kernel.Resolve(path[..i])
  }

  /**
   What createDir does to the tree, told over components: make the missing directories from
   the top.  One that is missing and has a gap after it is made, but counts as a failure, so
   that nothing is made below it.
   */
  function CreateChain(kernel: Kernel, tree: Tree, p: Path, mode: Mode, gaps: set<Path>): (Tree, bool)
    decreases |p|
  {
    match Lookup(tree, p)
    case Entry(node) => (tree, node.kind.Directory?)
    case NotDir => (tree, false)
    case NoEntry =>
      if p == [] then (tree, false)
      else
        var (above, ok) := CreateChain(kernel, tree, Parent(p), S_IRWXU, gaps);
        if ok && Parent(p) !in kernel.denied
        then (above[p := Node(Directory, DirMode(if p in gaps then S_IRWXU else mode, kernel.umask))], p !in gaps)
        else (above, false)
  }

  /** `now` is `was` with some prefixes of p, and nothing else, made directories. */
  ghost predicate Grown(was: Tree, now: Tree, p: Path) {
    && (forall q :: q in was ==> q in now && now[q] == was[q])
    && (forall q :: q in now && q !in was ==> q <= p && now[q].kind.Directory?)
  }

  /** The modes of what was added: `leaf` at p itself, `above` at its ancestors. */
  ghost predicate GrownModes(was: Tree, now: Tree, p: Path, leaf: Mode, above: Mode) {
    forall q :: q in now && q !in was ==> now[q].mode == if q == p then leaf else above
  }

  /**
   What createDir promises, for every path string.  It only adds directories on the way to
   the path; it reports success exactly when the path is a directory afterwards - unless the
   path ends in two slashes: then exactly when it was one before.  Created ancestors get
   S_IRWXU, and the leaf the requested mode, less the umask.
   */
  ghost predicate Created(kernel: Kernel, was: Tree, now: Tree, path: string, mode: Mode, ok: bool) {
    var p := kernel.Resolve(path);
    && Closed(now)
    && Grown(was, now, p)
    && GrownModes(was, now, p, DirMode(if DoubledEnd(path) then S_IRWXU else mode, kernel.umask),
        DirMode(S_IRWXU, kernel.umask))
    && ok == (path != "" && IsDir(if DoubledEnd(path) then was else now, p))
  }

  /** Where the path is not missing, nothing has to be made. */
  lemma NothingToMake(kernel: Kernel, was: Tree, path: string, mode: Mode)
    requires Closed(was) && path != "" && !Lookup(was, kernel.Resolve(path)).NoEntry?
    ensures Created(kernel, was, was, path, mode, IsDir(was, kernel.Resolve(path)))
    ensures var p := kernel.Resolve(path);
            forall gaps :: CreateChain(kernel, was, p, mode, gaps) == (was, IsDir(was, p))
  {
    LookupFinds(was, kernel.Resolve(path));
  }

  /** What the parent string names: the parent - or the path itself after a doubled slash. */
  lemma ParentResolves(kernel: Kernel, path: string)
    requires 1 <= |path| < NPOS && Components(path) != []
    ensures var p, parent := kernel.Resolve(path), ParentDir(path);
            && p != []
            && (parent == "" ==> Parent(p) == kernel.cwd && !DoubledEnd(path))
            && (parent != "" ==> kernel.Resolve(parent) == if DoubledEnd(path) then p else Parent(p))
  {
    hide ParentDir, DoubledEnd, Pieces;
    ParentComponents(path);
    var comps, before := Components(path), if IsAbsolute(path) then [] else kernel.cwd;
    assert (before + comps)[..|before + comps| - 1] == before + comps[..|comps| - 1];
    assert comps == [comps[0]] ==> comps[..0] == [] && before + [] == before;
  }

  /** The path of a missing file has components. */
  lemma MissingHasComponents(kernel: Kernel, was: Tree, path: string)
    requires Closed(was) && IsDir(was, kernel.cwd)
    requires Lookup(was, kernel.Resolve(path)).NoEntry?
    ensures Components(path) != [] && kernel.Resolve(path) !in was
  {
    LookupFinds(was, kernel.Resolve(path));
    LookupFinds(was, kernel.cwd);
    hide Closed, Pieces;
    assert kernel.cwd + [] == kernel.cwd;
  }

  /** A missing path has components, and its parent string names its parent - or itself after a doubled slash. */
  lemma MissingPath(kernel: Kernel, was: Tree, path: string)
    requires Closed(was) && IsDir(was, kernel.cwd) && 1 <= |path| < NPOS
    requires Lookup(was, kernel.Resolve(path)).NoEntry?
    ensures var p, parent := kernel.Resolve(path), ParentDir(path);
            && p != [] && p !in was
            && (parent == "" ==> IsDir(was, Parent(p)) && !DoubledEnd(path))
            && (parent != "" ==> kernel.Resolve(parent) == if DoubledEnd(path) then p else Parent(p))
  {
    MissingHasComponents(kernel, was, path);
    ParentResolves(kernel, path);
    hide Closed, Lookup, ParentDir, DoubledEnd, Pieces, Kernel.Resolve, IsDir;
  }

  /** What grew along the way to the parent grew along the way to the leaf, and has not made the leaf. */
  lemma GrownBelow(was: Tree, mid: Tree, p: Path, leaf: Mode, above: Mode)
    requires p != [] && p !in was
    requires Grown(was, mid, Parent(p)) && GrownModes(was, mid, Parent(p), above, above)
    ensures p !in mid && Grown(was, mid, p) && GrownModes(was, mid, p, leaf, above)
  {
    forall q | q in mid && q !in was
      ensures q <= p && q != p
    {
      assert q <= Parent(p) < p;
    }
  }

  /** Adding the leaf keeps it that way. */
  lemma LeafAdded(was: Tree, mid: Tree, p: Path, leaf: Mode, above: Mode)
    requires Closed(was) && Closed(mid) && p != [] && p !in mid && IsDir(mid, Parent(p))
    requires Grown(was, mid, p) && GrownModes(was, mid, p, leaf, above)
    ensures var now := mid[p := Node(Directory, leaf)];
            Closed(now) && Grown(was, now, p) && GrownModes(was, now, p, leaf, above)
  {
  }

  /** The parent could not be made, so neither could the path. */
  lemma ParentFailed(kernel: Kernel, was: Tree, now: Tree, path: string, mode: Mode)
    requires Closed(was) && IsDir(was, kernel.cwd) && 1 <= |path| < NPOS
    requires Lookup(was, kernel.Resolve(path)).NoEntry? && ParentDir(path) != ""
    requires Created(kernel, was, now, ParentDir(path), S_IRWXU, false)
    ensures Created(kernel, was, now, path, mode, false)
  {
    MissingPath(kernel, was, path);
    var p := kernel.Resolve(path);
    if !DoubledEnd(path) {
      GrownBelow(was, now, p, DirMode(mode, kernel.umask), DirMode(S_IRWXU, kernel.umask));
    }
    hide Closed, Grown, GrownModes, Lookup, ParentDir, DoubledEnd, Kernel.Resolve, DirMode;
  }

  /** The parent is there now, and mkdir fails or adds the leaf. */
  lemma LeafMade(kernel: Kernel, was: Tree, mid: Tree, path: string, mode: Mode, now: Tree, ok: bool)
    requires Closed(was) && IsDir(was, kernel.cwd) && 1 <= |path| < NPOS && !DoubledEnd(path)
    requires Lookup(was, kernel.Resolve(path)).NoEntry? && kernel.Resolve(path) != []
    requires if ParentDir(path) == "" then mid == was else Created(kernel, was, mid, ParentDir(path), S_IRWXU, true)
    requires var p := kernel.Resolve(path);
             && ok == (p !in mid && IsDir(mid, Parent(p)) && Parent(p) !in kernel.denied)
             && now == if ok then mid[p := Node(Directory, DirMode(mode, kernel.umask))] else mid
    ensures Created(kernel, was, now, path, mode, ok)
    ensures ok == (Parent(kernel.Resolve(path)) !in kernel.denied)
  {
    MissingPath(kernel, was, path);
    GrownBelow(was, mid, kernel.Resolve(path), DirMode(mode, kernel.umask), DirMode(S_IRWXU, kernel.umask));
    if ok {
      LeafAdded(was, mid, kernel.Resolve(path), DirMode(mode, kernel.umask), DirMode(S_IRWXU, kernel.umask));
    }
    hide Closed, Grown, GrownModes, DirMode, ParentDir, Lookup, DoubledEnd, Kernel.Resolve;
  }

  /** After a doubled slash the parent string names the same file, so mkdir finds it there. */
  lemma LeafThere(kernel: Kernel, was: Tree, mid: Tree, path: string, mode: Mode)
    requires Closed(was) && IsDir(was, kernel.cwd) && 1 <= |path| < NPOS && DoubledEnd(path)
    requires Lookup(was, kernel.Resolve(path)).NoEntry?
    requires ParentDir(path) != "" ==> Created(kernel, was, mid, ParentDir(path), S_IRWXU, true)
    ensures Created(kernel, was, mid, path, mode, false) && kernel.Resolve(path) in mid
  {
    MissingPath(kernel, was, path);
    hide DirMode, ParentDir, Lookup;
  }

  lemma SimpleHasNoGaps(kernel: Kernel, path: string)
    requires Simple(path)
    ensures Gaps(kernel, path) == {}
  {
  }

  /** What comes before a slash has no more components than the text around it. */
  lemma FewerBefore(path: string, i: nat, j: nat)
    requires i < j <= |path| && path[i] == '/'
    ensures |Components(path[..i])| <= |Components(path[..j])|
    ensures i + 1 == j ==> Components(path[..i]) == Components(path[..j])
  {
    hide Components;
    ComponentsSplit(path[..j], i);
    assert path[..j][..i] == path[..i];
    SlashesHaveNoComponents();
    assert i + 1 == j ==> path[..j][i + 1..] == "";
  }

  /** A gap of the path lies before the slash at j, after another directory, or is the one that ends the path. */
  lemma GapBefore(kernel: Kernel, path: string, i: nat, j: nat)
    requires GapAt(path, i) && Components(path) != []
    requires 1 <= j <= |path| - 2 && path[j] == '/' && (forall k :: j < k < |path| - 1 ==> path[k] != '/')
    requires var comps := Components(path);
             Components(path[..j]) == if DoubledEnd(path) then comps else comps[..|comps| - 1]
    ensures if i + 2 <= j
            then GapAt(path[..j], i) && (DoubledEnd(path) || kernel.Resolve(path[..i]) != kernel.Resolve(path))
            else DoubledEnd(path) && kernel.Resolve(path[..i]) == kernel.Resolve(path)
  {
    hide Pieces;
    if i < j {
      FewerBefore(path, i, j);
    }
  }

  /** Every gap of the path is one of the text before the slash at j, but for the one that ends the path. */
  lemma GapsOfPath(kernel: Kernel, path: string, j: nat)
    requires 1 <= j <= |path| - 2 && path[j] == '/' && (forall k :: j < k < |path| - 1 ==> path[k] != '/')
    requires Components(path) != []
    requires var comps := Components(path);
             Components(path[..j]) == if DoubledEnd(path) then comps else comps[..|comps| - 1]
    ensures Gaps(kernel, path) <= Gaps(kernel, path[..j]) + {kernel.Resolve(path)}
    ensures kernel.Resolve(path) in Gaps(kernel, path) <==> DoubledEnd(path)
  {
    hide Pieces, Kernel.Resolve, Components;
    forall i | 1 <= i <= |path| - 2 && GapAt(path, i)
      ensures kernel.Resolve(path[..i]) in Gaps(kernel, path[..j]) + {kernel.Resolve(path)}
      ensures kernel.Resolve(path[..i]) == kernel.Resolve(path) ==> DoubledEnd(path)
    {
      GapBefore(kernel, path, i, j);
      if i + 2 <= j {
        assert path[..j][..i] == path[..i];
      }
    }
    if DoubledEnd(path) {
      GapBefore(kernel, path, |path| - 2, j);
    }
  }

  /** Every gap of the text before a slash is one of the path. */
  lemma GapsOfParent(kernel: Kernel, path: string, j: nat)
    requires j < |path| && path[j] == '/'
    ensures Gaps(kernel, path[..j]) <= Gaps(kernel, path)
  {
    hide Kernel.Resolve;
    forall i | 1 <= i <= j - 2 && GapAt(path[..j], i)
      ensures GapAt(path, i) && path[..j][..i] == path[..i]
    {
    }
  }

  /** The parent string has the same gaps, but for the one that ends the path. */
  lemma ParentGaps(kernel: Kernel, path: string)
    requires 1 <= |path| < NPOS && Components(path) != []
    ensures var parent, p := ParentDir(path), kernel.Resolve(path);
            if parent == "" then Gaps(kernel, path) == {}
            else if DoubledEnd(path) then Gaps(kernel, path) == Gaps(kernel, parent) + {p}
            else Gaps(kernel, path) == Gaps(kernel, parent) && p !in Gaps(kernel, path)
  {
    ParentComponents(path);
    SlashesHaveNoComponents();
    var j := FindLastOf(path, '/', BeforeLast(|path|));
    hide Components, FindLastOf, Kernel.Resolve;
    if j != NPOS && j > 0 {
      GapsOfPath(kernel, path, j);
      GapsOfParent(kernel, path, j);
      hide Gaps, DoubledEnd;
    }
  }

  /** A gap further down does not matter. */
  lemma {:induction false} GapBelow(kernel: Kernel, tree: Tree, q: Path, mode: Mode, gaps: set<Path>, p: Path)
    requires |q| < |p|
    ensures CreateChain(kernel, tree, q, mode, gaps + {p}) == CreateChain(kernel, tree, q, mode, gaps)
    decreases |q|
  {
    if q != [] {
      GapBelow(kernel, tree, Parent(q), S_IRWXU, gaps, p);
    }
  }

  /** One step up the chain. */
  lemma ChainStep(kernel: Kernel, tree: Tree, p: Path, mode: Mode, gaps: set<Path>)
    requires p != [] && Lookup(tree, p).NoEntry?
    ensures var (above, ok) := CreateChain(kernel, tree, Parent(p), S_IRWXU, gaps);
            CreateChain(kernel, tree, p, mode, gaps) ==
            if ok && Parent(p) !in kernel.denied
            then (above[p := Node(Directory, DirMode(if p in gaps then S_IRWXU else mode, kernel.umask))], p !in gaps)
            else (above, false)
  {
  }

  lemma ChainAtDirectory(kernel: Kernel, tree: Tree, p: Path, mode: Mode, gaps: set<Path>)
    requires Closed(tree) && IsDir(tree, p)
    ensures CreateChain(kernel, tree, p, mode, gaps) == (tree, true)
  {
    LookupFinds(tree, p);
  }

  /** p is below or at a directory that exists, and everything from there down is free, permitted, and without a gap. */
  ghost predicate CanMake(kernel: Kernel, tree: Tree, p: Path, gaps: set<Path>) {
    exists k :: 0 <= k <= |p| && IsDir(tree, p[..k]) && FreeBelow(kernel, tree, p, gaps, k)
  }

  predicate FreeAt(kernel: Kernel, tree: Tree, p: Path, gaps: set<Path>, j: nat) {
    0 < j <= |p| && p[..j] !in tree && p[..j - 1] !in kernel.denied && p[..j] !in gaps
  }

  ghost predicate FreeBelow(kernel: Kernel, tree: Tree, p: Path, gaps: set<Path>, k: nat) {
    forall j :: k < j <= |p| ==> FreeAt(kernel, tree, p, gaps, j)
  }

  lemma FreeBelowParent(kernel: Kernel, tree: Tree, p: Path, gaps: set<Path>, k: nat)
    requires p != [] && k < |p|
    ensures FreeBelow(kernel, tree, p, gaps, k) <==>
            FreeBelow(kernel, tree, Parent(p), gaps, k) && p !in tree && Parent(p) !in kernel.denied && p !in gaps
    ensures p[..k] == Parent(p)[..k]
  {
    var q := Parent(p);
    assert p[..|p|] == p && p[..|p| - 1] == q;
    if FreeBelow(kernel, tree, p, gaps, k) {
      assert FreeAt(kernel, tree, p, gaps, |p|);
      forall j | k < j <= |q|
        ensures FreeAt(kernel, tree, q, gaps, j)
      {
        assert FreeAt(kernel, tree, p, gaps, j);
        assert q[..j] == p[..j] && q[..j - 1] == p[..j - 1];
      }
    }
    if FreeBelow(kernel, tree, q, gaps, k) && p !in tree && q !in kernel.denied && p !in gaps {
      forall j | k < j <= |p|
        ensures FreeAt(kernel, tree, p, gaps, j)
      {
        assert j < |p| ==> FreeAt(kernel, tree, q, gaps, j);
        assert j < |p| ==> q[..j] == p[..j] && q[..j - 1] == p[..j - 1];
      }
    }
  }

  /** When the path is a directory in the end, and counts as one: without following the chain. */
  lemma {:induction false} ChainSucceedsIff(kernel: Kernel, tree: Tree, p: Path, mode: Mode, gaps: set<Path>)
    requires Closed(tree)
    ensures CreateChain(kernel, tree, p, mode, gaps).1 <==> CanMake(kernel, tree, p, gaps)
    decreases |p|
  {
    LookupFinds(tree, p);
    assert p[..|p|] == p;
    if IsDir(tree, p) {
      assert FreeBelow(kernel, tree, p, gaps, |p|);
    } else {
      ChainSucceedsIff(kernel, tree, Parent(p), S_IRWXU, gaps);
      hide Closed, FreeBelow, DirMode;
      forall k | 0 <= k < |p|
        ensures FreeBelow(kernel, tree, p, gaps, k) <==>
                FreeBelow(kernel, tree, Parent(p), gaps, k) && p !in tree && Parent(p) !in kernel.denied && p !in gaps
        ensures p[..k] == Parent(p)[..k]
      {
        FreeBelowParent(kernel, tree, p, gaps, k);
      }
    }
  }

  /** What the recursive call has done to the tree, or nothing where there is no parent string. */
  function ParentMade(kernel: Kernel, was: Tree, path: string): (Tree, bool)
    requires |path| < NPOS
  {
    var parent := ParentDir(path);
    if parent == "" then (was, true)
    else CreateChain(kernel, was, kernel.Resolve(parent), S_IRWXU, Gaps(kernel, parent))
  }

  /** Without a doubled slash at the end, that is the chain of directories above the path. */
  lemma ParentMadeIsChain(kernel: Kernel, was: Tree, path: string)
    requires Closed(was) && IsDir(was, kernel.cwd) && 1 <= |path| < NPOS && !DoubledEnd(path)
    requires Lookup(was, kernel.Resolve(path)).NoEntry? && kernel.Resolve(path) != []
    ensures ParentMade(kernel, was, path) ==
            CreateChain(kernel, was, Parent(kernel.Resolve(path)), S_IRWXU, Gaps(kernel, path))
  {
    hide Gaps, ParentDir, Kernel.Resolve, DoubledEnd, DirMode, Closed, CreateChain, Lookup;
    MissingPath(kernel, was, path);
    MissingHasComponents(kernel, was, path);
    ParentGaps(kernel, path);
    if ParentDir(path) == "" {
      ChainAtDirectory(kernel, was, Parent(kernel.Resolve(path)), S_IRWXU, Gaps(kernel, path));
    }
  }

  lemma ChainExtended(kernel: Kernel, was: Tree, path: string, mode: Mode)
    requires Closed(was) && IsDir(was, kernel.cwd) && 1 <= |path| < NPOS
    requires Lookup(was, kernel.Resolve(path)).NoEntry? && kernel.Resolve(path) != []
    ensures var p, (mid, validParent) := kernel.Resolve(path), ParentMade(kernel, was, path);
            CreateChain(kernel, was, p, mode, Gaps(kernel, path)) ==
            if !DoubledEnd(path) && validParent && Parent(p) !in kernel.denied
            then (mid[p := Node(Directory, DirMode(mode, kernel.umask))], true) else (mid, false)
  {
    hide Gaps, ParentDir, Kernel.Resolve, DoubledEnd, DirMode, Closed, CreateChain, Lookup;
    var p, parent, gaps := kernel.Resolve(path), ParentDir(path), Gaps(kernel, path);
    MissingPath(kernel, was, path);
    MissingHasComponents(kernel, was, path);
    ParentGaps(kernel, path);
    ChainStep(kernel, was, p, mode, gaps);
    if parent == "" {
      ChainAtDirectory(kernel, was, Parent(p), S_IRWXU, gaps);
    } else if DoubledEnd(path) {
      GapBelow(kernel, was, Parent(p), S_IRWXU, Gaps(kernel, parent), p);
      ChainStep(kernel, was, p, S_IRWXU, Gaps(kernel, parent));
    }
  }

  method CreateDir(kernel: Kernel, path: string, accessMode: Mode) returns (ok: bool)
    requires kernel.Valid() && |path| < NPOS
    modifies kernel`tree
    ensures kernel.Valid()
    ensures Created(kernel, old(kernel.tree), kernel.tree, path, accessMode, ok)
    ensures ok <==> path != "" && old(CanMake(kernel, kernel.tree, kernel.Resolve(path), Gaps(kernel, path)))
    ensures path != "" ==>
              (kernel.tree, ok) == CreateChain(kernel, old(kernel.tree), kernel.Resolve(path), accessMode,
                  Gaps(kernel, path))
    decreases |path|
  {
    if path == "" {
      return false;
    }
    ghost var was := kernel.tree;
    hide CanMake;
    ChainSucceedsIff(kernel, was, kernel.Resolve(path), accessMode, Gaps(kernel, path));
    LookupFinds(was, kernel.Resolve(path));
    var pathType := GetPathType(kernel, path);
    if !pathType.Missing? {
      NothingToMake(kernel, was, path, accessMode);
    }
    if pathType == Typed(Directory) {
      return true;
    }
    if pathType != Missing {
      return false;
    }
    MissingPath(kernel, was, path);
    ChainExtended(kernel, was, path, accessMode);
    var parentPath := ParentDir(path);
    if parentPath != "" {
      ParentIsShorter(path);
      var validParent := CreateDir(kernel, parentPath, S_IRWXU);
      if !validParent {
        ParentFailed(kernel, was, kernel.tree, path, accessMode);
        return false;
      }
    }
    ghost var mid := kernel.tree;
    hide Created, CreateChain, Lookup, ParentDir, DirMode, Gaps;
    ok := kernel.Mkdir(path, accessMode);
    if DoubledEnd(path) {
      LeafThere(kernel, was, mid, path, accessMode);
    } else {
      LeafMade(kernel, was, mid, path, accessMode, kernel.tree, ok);
    }
  }

  /** What was added is one unbroken run of ancestors, ending at the deepest one made. */
  lemma AddedInOneRun(was: Tree, now: Tree, p: Path, i: nat, j: nat)
    requires Closed(was) && Closed(now) && Grown(was, now, p)
    requires 0 < i <= j <= |p| && p[..j] in now && p[..i] !in was
    ensures p[..i] in now
    ensures p[..j] !in was
  {
    if i < j {
      assert p[..i] == p[..j][..i];
      PrefixIsDir(now, p[..j], p[..i]);
      if p[..j] in was {
        PrefixIsDir(was, p[..j], p[..i]);
      }
    }
  }

  /** Nothing is missing the second time: createDir on a directory changes nothing and succeeds. */
  lemma SecondCreateIsIdle(kernel: Kernel, was: Tree, now: Tree, path: string, mode: Mode, ok: bool)
    requires Closed(was) && path != "" && IsDir(was, kernel.Resolve(path))
    requires Created(kernel, was, now, path, mode, ok)
    ensures ok && now == was
  {
    var p := kernel.Resolve(path);
    forall q | q in now
      ensures q in was
    {
      if q !in was && q < p {
        PrefixIsDir(was, p, q);
      }
    }
  }

  /**
   When createDir reports failure although the path is a directory afterwards: exactly for a
   missing path that ends in two slashes, below a directory that exists or can be made.
   */
  lemma FailsThoughMadeIff(kernel: Kernel, was: Tree, path: string, mode: Mode)
    requires Closed(was) && IsDir(was, kernel.cwd) && 1 <= |path| < NPOS
    ensures var p := kernel.Resolve(path);
            var (now, ok) := CreateChain(kernel, was, p, mode, Gaps(kernel, path));
            !ok && IsDir(now, p) <==>
            && DoubledEnd(path) && Lookup(was, p).NoEntry?
            && CanMake(kernel, was, Parent(p), Gaps(kernel, path)) && Parent(p) !in kernel.denied
  {
    hide Closed, Gaps, ParentDir, Kernel.Resolve, DoubledEnd, DirMode, CreateChain, CanMake, Lookup, Components;
    var p := kernel.Resolve(path);
    if Lookup(was, p).NoEntry? {
      MissingHasComponents(kernel, was, path);
      ParentResolves(kernel, path);
      ParentGaps(kernel, path);
      ChainStep(kernel, was, p, mode, Gaps(kernel, path));
      ChainSucceedsIff(kernel, was, Parent(p), S_IRWXU, Gaps(kernel, path));
      ChainAddsAbove(kernel, was, Parent(p), S_IRWXU, Gaps(kernel, path));
    } else {
      NothingToMake(kernel, was, path, mode);
    }
  }

  lemma {:induction false} ChainAddsAbove(kernel: Kernel, tree: Tree, q: Path, mode: Mode, gaps: set<Path>)
    ensures forall x :: x in CreateChain(kernel, tree, q, mode, gaps).0 ==> x in tree || |x| <= |q|
    decreases |q|
  {
    if q != [] {
      ChainAddsAbove(kernel, tree, Parent(q), S_IRWXU, gaps);
    }
  }

  /** Such a path: "/a//" on an empty tree. */
  lemma SlashSlashFails(kernel: Kernel)
    requires kernel.denied == {} && kernel.cwd == []
    ensures CreateChain(kernel, map[], kernel.Resolve("/a//"), S_IRWXU, Gaps(kernel, "/a//")) ==
            (map[["a"] := Node(Directory, DirMode(S_IRWXU, kernel.umask))], false)
  {
    hide Components, DirMode, Gaps;
    SlashSlashPath(kernel);
    ChainStep(kernel, map[], ["a"], S_IRWXU, {["a"]});
    assert Parent(["a"]) == [];
    assert CreateChain(kernel, map[], [], S_IRWXU, {["a"]}) == (map[], true);
    assert Lookup(map[], ["a"]).NoEntry?;
  }

  lemma SlashSlashPath(kernel: Kernel)
    ensures kernel.Resolve("/a//") == ["a"] && Gaps(kernel, "/a//") == {["a"]}
  {
    hide Components;
    SlashesHaveNoComponents();
    LastComponent("a");
    ComponentsSplit("/a", 0);
    assert "/a"[..0] == "" && "/a"[1..] == "a";
    ComponentsSplit("/a//", 2);
    assert "/a//"[..2] == "/a" && "/a//"[3..] == "/";
    assert IsAbsolute("/a") && kernel.Resolve("/a//"[..2]) == ["a"];
    assert GapAt("/a//", 2) && !GapAt("/a//", 1);
    assert Gaps(kernel, "/a//") == {kernel.Resolve("/a//"[..2])};
  }

  /**
   Three slashes in the middle: "/a///b" on an empty tree makes the first directory, fails, and
   makes nothing below it.
   */
  lemma ThreeSlashesFail(kernel: Kernel)
    requires kernel.denied == {} && kernel.cwd == []
    ensures CreateChain(kernel, map[], kernel.Resolve("/a///b"), S_IRWXU, Gaps(kernel, "/a///b")) ==
            (map[["a"] := Node(Directory, DirMode(S_IRWXU, kernel.umask))], false)
  {
    hide Components, DirMode, Gaps, CreateChain;
    ThreeSlashesPath(kernel);
    var gaps: set<Path> := {["a"]};
    assert Parent(["a", "b"]) == ["a"] && Parent(["a"]) == [] && IsDir(map[], []);
    ChainAtDirectory(kernel, map[], [], S_IRWXU, gaps);
    NothingOnEmptyTree(["a"]);
    NothingOnEmptyTree(["a", "b"]);
    ChainStep(kernel, map[], ["a"], S_IRWXU, gaps);
    ChainStep(kernel, map[], ["a", "b"], S_IRWXU, gaps);
  }

  lemma {:induction false} NothingOnEmptyTree(p: Path)
    requires p != []
    ensures Lookup(map[], p).NoEntry?
  {
    if |p| > 1 {
      NothingOnEmptyTree(Parent(p));
    }
  }

  lemma ThreeSlashesPath(kernel: Kernel)
    ensures kernel.Resolve("/a///b") == ["a", "b"] && Gaps(kernel, "/a///b") == {["a"]}
  {
    hide Components;
    var path := "/a///b";
    SlashSlashPath(kernel);
    LastComponent("b");
    ComponentsSplit(path, 4);
    assert path[..4] == "/a//" && path[5..] == "b";
    assert IsAbsolute("/a//") && IsAbsolute("/a") && "/a//"[..2] == "/a" == path[..2];
    assert GapAt("/a//", 2) && !GapAt("/a//", 1) && Gaps(kernel, "/a//") == {kernel.Resolve("/a//"[..2])};
    assert GapAt(path, 2) && !GapAt(path, 1) && !GapAt(path, 3) && !GapAt(path, 4);
    assert Gaps(kernel, path) == {kernel.Resolve(path[..2])};
  }
}
