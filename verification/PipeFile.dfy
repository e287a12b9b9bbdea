/** Pipe::createPipe: accept the FIFO that is there, or make it and the directories above it. */
module PipeFile {
  import opened FileSystem
  import opened FileUtils

  /** What createPipe does to the tree: directories on the way to the path, then perhaps the FIFO itself. */
  ghost predicate PipeMade(kernel: Kernel, was: Tree, now: Tree, p: Path, mode: Mode, ok: bool) {
    && p != [] && p !in was
    && (ok <==> p in now && now[p].kind.NamedPipe?)
    && (ok ==> now[p].mode == FileMode(mode, kernel.umask) && IsDir(now, Parent(p)))
    && (forall q :: q in was ==> q in now && now[q] == was[q])
    && (forall q :: q in now && q !in was ==> q <= p && (q == p || now[q].kind.Directory?))
  }

  lemma OnlyDirectoriesMade(kernel: Kernel, was: Tree, now: Tree, p: Path, mode: Mode)
    requires p != [] && p !in was && Grown(was, now, p)
    ensures PipeMade(kernel, was, now, p, mode, false)
  {
  }

  lemma PipeAdded(kernel: Kernel, was: Tree, mid: Tree, p: Path, mode: Mode)
    requires PipeMade(kernel, was, mid, p, mode, false) && p !in mid && IsDir(mid, Parent(p))
    ensures PipeMade(kernel, was, mid[p := Node(NamedPipe, FileMode(mode, kernel.umask))], p, mode, true)
  {
  }

  /** The directories above a missing path after createDir on its parent string, if it has one. */
  lemma DirectoriesReady(kernel: Kernel, was: Tree, mid: Tree, path: string, mode: Mode, made: bool)
    requires Closed(was) && IsDir(was, kernel.cwd) && 1 <= |path| < NPOS && Lookup(was, kernel.Resolve(path)).NoEntry?
    requires if ParentDir(path) == "" then mid == was && made
             else Created(kernel, was, mid, ParentDir(path), S_IRWXU, made)
    ensures var p := kernel.Resolve(path);
            && p != [] && PipeMade(kernel, was, mid, p, mode, false)
            && (!DoubledEnd(path) ==> p !in mid && (made ==> IsDir(mid, Parent(p))))
  {
    MissingPath(kernel, was, path);
    var p := kernel.Resolve(path);
    if ParentDir(path) == "" {
      assert Grown(was, mid, p);
    } else if !DoubledEnd(path) {
      GrownBelow(was, mid, p, DirMode(S_IRWXU, kernel.umask), DirMode(S_IRWXU, kernel.umask));
    }
    OnlyDirectoriesMade(kernel, was, mid, p, mode);
    hide Closed, Grown, GrownModes, PipeMade, Lookup, Kernel.Resolve, ParentDir, DirMode, DoubledEnd;
  }

  /** What createDir on the parent string makes, told over the components of the path. */
  lemma ChainOfPath(kernel: Kernel, was: Tree, path: string)
    requires Closed(was) && IsDir(was, kernel.cwd) && 1 <= |path| < NPOS && Lookup(was, kernel.Resolve(path)).NoEntry?
    requires kernel.Resolve(path) != []
    ensures var p := kernel.Resolve(path);
            if DoubledEnd(path)
            then CreateChain(kernel, was, p, S_IRWXU, Gaps(kernel, path)).0 == ParentMade(kernel, was, path).0
            else CreateChain(kernel, was, Parent(p), S_IRWXU, Gaps(kernel, path)) == ParentMade(kernel, was, path)
  {
    hide CreateChain, ParentMade, Gaps, Closed, Lookup, Kernel.Resolve, DoubledEnd;
    if DoubledEnd(path) {
      ChainExtended(kernel, was, path, S_IRWXU);
    } else {
      ParentMadeIsChain(kernel, was, path);
    }
  }

  method CreatePipe(kernel: Kernel, path: string, mode: Mode) returns (ok: bool)
    requires kernel.Valid() && |path| < NPOS
    modifies kernel`tree
    ensures kernel.Valid()
    ensures ok ==> !EndsWithSlash(path)
    ensures old(kernel.Stat(path)).NotDir? ==> !ok && kernel.tree == old(kernel.tree)
    ensures old(kernel.Stat(path)).Entry? ==>
              ok == (old(kernel.Stat(path)).node == Node(NamedPipe, mode)) && kernel.tree == old(kernel.tree)
    ensures old(kernel.Stat(path)).NoEntry? && path == "" ==> !ok && kernel.tree == old(kernel.tree)
    ensures old(kernel.Stat(path)).NoEntry? && path != "" ==>
              PipeMade(kernel, old(kernel.tree), kernel.tree, kernel.Resolve(path), mode, ok)
    ensures old(kernel.Stat(path)).NoEntry? && path != "" && !DoubledEnd(path) ==>
              var p := kernel.Resolve(path);
              var (above, made) := CreateChain(kernel, old(kernel.tree), Parent(p), S_IRWXU, Gaps(kernel, path));
              && ok == (made && !EndsWithSlash(path) && Parent(p) !in kernel.denied)
              && kernel.tree == if ok then above[p := Node(NamedPipe, FileMode(mode, kernel.umask))] else above
    // After a doubled slash the path itself is taken for the directory, and made.
    ensures old(kernel.Stat(path)).NoEntry? && DoubledEnd(path) ==>
              && !ok
              && kernel.tree == CreateChain(kernel, old(kernel.tree), kernel.Resolve(path), S_IRWXU,
                  Gaps(kernel, path)).0
  {
    var existing := kernel.Stat(path);
    if existing.NotDir? {
      return false;
    }
    if existing.Entry? {
      return existing.node == Node(NamedPipe, mode);
    }
    if path == "" {
      ok := kernel.Mkfifo(path, mode);
      return;
    }
    ghost var was, p := kernel.tree, kernel.Resolve(path);
    MissingPath(kernel, was, path);
    ChainOfPath(kernel, was, path);
    var pipeDir, made := ParentDir(path), true;
    if pipeDir != "" {
      ParentIsShorter(path);
      made := CreateDir(kernel, pipeDir, S_IRWXU);
    }
    DirectoriesReady(kernel, was, kernel.tree, path, mode, made);
    ghost var mid := kernel.tree;
    assert DoubledEnd(path) ==> EndsWithSlash(path);
    assert kernel.tree == ParentMade(kernel, was, path).0 && made == ParentMade(kernel, was, path).1;
    hide Closed, ParentMade, PipeMade, CreateChain, ParentDir, DoubledEnd, Gaps, Lookup, Created, Kernel.Resolve,
        DirMode, FileMode;
    if !made {
      return false;
    }
    ok := kernel.Mkfifo(path, mode);
    if ok {
      PipeAdded(kernel, was, mid, p, mode);
    }
  }

  /** A file mode survives the umask exactly when the umask clears none of its bits. */
  lemma KeepsModeIff(mode: Mode, umask: Mode)
    ensures FileMode(mode, umask) == mode <==> mode & umask == 0
  {
  }

  /**
   createPipe twice in a row.  A first success leaves a FIFO at the path; the second call then
   changes nothing, and succeeds too exactly when that FIFO has the requested mode - always if
   the first call found it, otherwise if the umask clears none of the requested bits.
   */
  method CreatePipeTwice(kernel: Kernel, path: string, mode: Mode) returns (first: bool, second: bool,
      ghost between: Tree)
    requires kernel.Valid() && |path| < NPOS
    modifies kernel`tree
    ensures first ==> kernel.Resolve(path) in between && between[kernel.Resolve(path)].kind.NamedPipe?
    ensures first ==> kernel.tree == between
    ensures first && old(kernel.Stat(path)).Entry? ==> second && between == old(kernel.tree)
    ensures first && old(kernel.Stat(path)).NoEntry? ==> (second <==> mode & kernel.umask == 0)
  {
    hide Closed, ParentMade, CreateChain, ParentDir, FileMode, Kernel.Resolve;
    ghost var was, p := kernel.tree, kernel.Resolve(path);
    LookupFinds(was, p);
    first := CreatePipe(kernel, path, mode);
    between := kernel.tree;
    LookupFinds(between, p);
    KeepsModeIff(mode, kernel.umask);
    second := CreatePipe(kernel, path, mode);
  }

  lemma PlainName(kernel: Kernel)
    requires kernel.cwd == []
    ensures kernel.Resolve("p") == ["p"] && Lookup(map[], ["p"]).NoEntry?
    ensures forall gaps :: CreateChain(kernel, map[], Parent(["p"]), S_IRWXU, gaps) == (map[], true)
  {
    LastComponent("p");
    hide Components;
    assert Parent(["p"]) == [];
  }

  /** A first success and a second failure: path "p" with mode 0666 and umask 022, on an empty tree. */
  method SecondCreateFails() returns (kernel: Kernel, first: bool, second: bool)
    ensures fresh(kernel) && first && !second
  {
    kernel := new Kernel(map[], [], 0x012, {});
    PlainName(kernel);
    KeepsModeIff(0x1B6, 0x012);
    hide CreateChain, ParentDir, Gaps, Components, Kernel.Resolve, FileMode, PipeMade, Lookup;
    first := CreatePipe(kernel, "p", 0x1B6);
    LookupFinds(kernel.tree, ["p"]);
    second := CreatePipe(kernel, "p", 0x1B6);
  }
}
