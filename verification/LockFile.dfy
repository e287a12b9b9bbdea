/** The loop with which DaemonLoop::runLoop opens its lock file, making the directory if it is missing. */
module LockFile {
  import opened FileSystem
  import opened FileUtils

  /** What interferes with one call of open: nothing, a signal, or an error that has nothing to do with the path. */
  datatype OpenEvent = Undisturbed | Interrupted(termReceived: bool) | Refused

  /** How the loop ends. */
  datatype LockOpen = LockOpened | TermReceived | CannotOpen

  /** When open reports ENOENT for a path that is not empty, the file is missing and the path has a parent string. */
  lemma EnoentMeansMissing(kernel: Kernel, path: string)
    requires kernel.Valid() && |path| < NPOS && path != ""
    ensures kernel.OpenVerdict(path).Enoent? ==>
              Lookup(kernel.tree, kernel.Resolve(path)).NoEntry? && ParentDir(path) != ""
  {
    LookupFinds(kernel.tree, kernel.Resolve(path));
    if Lookup(kernel.tree, kernel.Resolve(path)).NoEntry? {
      MissingPath(kernel, kernel.tree, path);
    }
  }

  /** What the first call of open meets that is not a signal other than SIGTERM, and what is left for later calls. */
  function Meets(events: seq<OpenEvent>): (OpenEvent, seq<OpenEvent>) {
    if events == [] then (Undisturbed, [])
    else if events[0] == Interrupted(false) then Meets(events[1..])
    else (events[0], events[1..])
  }

  /**
   How opening the lock file ends, told without the loop: the first call that is not interrupted
   by another signal is settled by the tree, and after an ENOENT so is the second.
   */
  function LockResult(kernel: Kernel, path: string, events: seq<OpenEvent>): LockOpen
    requires |path| < NPOS
    reads kernel
  {
    var (first, later) := Meets(events);
    match first
    case Interrupted(_) => TermReceived
    case Refused => CannotOpen
    case Undisturbed =>
      match kernel.OpenVerdict(path)
      case Opened => LockOpened
      case OtherError => CannotOpen
      case Enoent =>
        if path == "" || !ParentMade(kernel, kernel.tree, path).1 then CannotOpen
        else
          match Meets(later).0
          case Interrupted(_) => TermReceived
          case Refused => CannotOpen
          case Undisturbed => if CanMakeFile(kernel, path) then LockOpened else CannotOpen
  }

  /** Whether a file can be created in the directory of the lock. */
  predicate CanMakeFile(kernel: Kernel, path: string) {
    var p := kernel.Resolve(path);
    p != [] && !EndsWithSlash(path) && Parent(p) !in kernel.denied
  }

  /** Nothing but signals other than SIGTERM. */
  predicate Quiet(events: seq<OpenEvent>) {
    forall k :: 0 <= k < |events| ==> events[k] == Undisturbed || events[k] == Interrupted(false)
  }

  lemma {:induction false} QuietMeetsNothing(events: seq<OpenEvent>)
    requires Quiet(events)
    ensures Meets(events).0 == Undisturbed && Quiet(Meets(events).1)
    decreases |events|
  {
    if events != [] && events[0] == Interrupted(false) {
      QuietMeetsNothing(events[1..]);
    }
  }

  /** The k-th event comes after signals other than SIGTERM alone, and is something else. */
  predicate ComesFirst(events: seq<OpenEvent>, k: nat) {
    k < |events| && events[k] != Interrupted(false) && forall i :: 0 <= i < k ==> events[i] == Interrupted(false)
  }

  /** What comes after signals other than SIGTERM alone is what the first call meets. */
  lemma {:induction false} MeetsAfterSignals(events: seq<OpenEvent>, k: nat)
    requires ComesFirst(events, k)
    ensures Meets(events).0 == events[k]
    decreases k
  {
    if k > 0 {
      assert events[1..][k - 1] == events[k];
      MeetsAfterSignals(events[1..], k - 1);
    }
  }

  lemma NamesAFile(kernel: Kernel, path: string)
    requires path != "" && !EndsWithSlash(path) && |path| < NPOS
    ensures Components(path) != [] && kernel.Resolve(path) != []
  {
    var i := FindLastOf(path, '/', NPOS - 1);
    hide Components, FindLastOf;
    if i == NPOS {
      LastComponent(path);
    } else {
      ComponentsSplit(path, i);
      LastComponent(path[i + 1..]);
    }
  }

  /**
   When the lock file can be opened, told of the tree alone: it is there, and neither a directory nor
   a socket; or its directory exists or can be made, and a file can be created in it.
   */
  lemma LockOpensIff(kernel: Kernel, path: string, events: seq<OpenEvent>)
    requires kernel.Valid() && path != "" && !EndsWithSlash(path) && |path| < NPOS && Quiet(events)
    ensures var p, result := kernel.Resolve(path), LockResult(kernel, path, events);
            && p != [] && !result.TermReceived?
            && (result.LockOpened? <==>
                  if p in kernel.tree then !kernel.tree[p].kind.Directory? && !kernel.tree[p].kind.Socket?
                  else CanMake(kernel, kernel.tree, Parent(p), Gaps(kernel, path)) && Parent(p) !in kernel.denied)
  {
    QuietMeetsNothing(events);
    QuietMeetsNothing(Meets(events).1);
    NamesAFile(kernel, path);
    var p := kernel.Resolve(path);
    assert !DoubledEnd(path);
    hide Closed, CreateChain, CanMake, Gaps, ParentMade, Kernel.Resolve, Meets, Quiet, Components;
    LookupFinds(kernel.tree, p);
    LookupFinds(kernel.tree, Parent(p));
    ChainSucceedsIff(kernel, kernel.tree, Parent(p), S_IRWXU, Gaps(kernel, path));
    if Lookup(kernel.tree, p).NoEntry? {
      ParentMadeIsChain(kernel, kernel.tree, path);
      if IsDir(kernel.tree, Parent(p)) {
        ChainAtDirectory(kernel, kernel.tree, Parent(p), S_IRWXU, Gaps(kernel, path));
      }
    } else if p !in kernel.tree {
      NothingMadeBelowFile(kernel, kernel.tree, Parent(p), S_IRWXU, Gaps(kernel, path));
    }
  }

  lemma NothingMadeBelowFile(kernel: Kernel, tree: Tree, p: Path, mode: Mode, gaps: set<Path>)
    requires !Lookup(tree, p).NoEntry? && !(Lookup(tree, p).Entry? && Lookup(tree, p).node.kind.Directory?)
    ensures !CreateChain(kernel, tree, p, mode, gaps).1
  {
  }

  lemma EventDecides(kernel: Kernel, path: string, events: seq<OpenEvent>)
    requires |path| < NPOS
    ensures Meets(events).0.Interrupted? ==> LockResult(kernel, path, events).TermReceived?
    ensures Meets(events).0.Refused? ==> LockResult(kernel, path, events).CannotOpen?
  {
  }

  /** Below a directory that exists, a name that is not taken is reported as missing. */
  lemma MissingBelow(tree: Tree, p: Path)
    requires Closed(tree) && p != [] && p !in tree && IsDir(tree, Parent(p))
    ensures Lookup(tree, p).NoEntry?
  {
    LookupFinds(tree, Parent(p));
  }

  /**
   createDir has succeeded on the parent string: the directory of the lock, or the lock path
   itself, is a directory.
   */
  lemma DirectoryMade(kernel: Kernel, was: Tree, now: Tree, path: string)
    requires Closed(was) && IsDir(was, kernel.cwd) && 1 <= |path| < NPOS
    requires Lookup(was, kernel.Resolve(path)).NoEntry? && ParentDir(path) != ""
    requires Created(kernel, was, now, ParentDir(path), S_IRWXU, true)
    ensures var p := kernel.Resolve(path);
            p != [] && if DoubledEnd(path) then IsDir(now, p) else p !in now && IsDir(now, Parent(p))
  {
    MissingPath(kernel, was, path);
    var p := kernel.Resolve(path);
    if !DoubledEnd(path) {
      GrownBelow(was, now, p, DirMode(S_IRWXU, kernel.umask), DirMode(S_IRWXU, kernel.umask));
    }
    hide Closed, GrownModes, Lookup, ParentDir, DoubledEnd, Kernel.Resolve, DirMode;
  }

  /** After createDir on the parent string has succeeded, open does not report ENOENT any more. */
  lemma DirectoryHelps(kernel: Kernel, was: Tree, path: string)
    requires kernel.Valid() && Closed(was) && IsDir(was, kernel.cwd) && 1 <= |path| < NPOS
    requires Lookup(was, kernel.Resolve(path)).NoEntry? && ParentDir(path) != ""
    requires Created(kernel, was, kernel.tree, ParentDir(path), S_IRWXU, true)
    ensures !kernel.OpenVerdict(path).Enoent?
    ensures kernel.OpenVerdict(path).Opened? <==> CanMakeFile(kernel, path)
  {
    assert DoubledEnd(path) ==> EndsWithSlash(path);
    hide Closed, Created, Lookup, ParentDir, Kernel.Resolve;
    DirectoryMade(kernel, was, kernel.tree, path);
    LookupFinds(kernel.tree, kernel.Resolve(path));
    if !DoubledEnd(path) {
      MissingBelow(kernel.tree, kernel.Resolve(path));
    }
  }

  /** What the loop may add: directories on the way to the lock path, and the lock file itself. */
  ghost predicate LockAdded(was: Tree, now: Tree, p: Path) {
    && (forall q :: q in was ==> q in now && now[q] == was[q])
    && (forall q :: q in now && q !in was ==> q <= p && (now[q].kind.Directory? || (q == p && now[q].kind.Regular?)))
  }

  /** createDir on the parent string stays on the way to the lock path. */
  lemma DirectoriesAdded(kernel: Kernel, was: Tree, now: Tree, path: string, made: bool)
    requires Closed(was) && IsDir(was, kernel.cwd) && 1 <= |path| < NPOS && ParentDir(path) != ""
    requires Lookup(was, kernel.Resolve(path)).NoEntry? && Created(kernel, was, now, ParentDir(path), S_IRWXU, made)
    ensures LockAdded(was, now, kernel.Resolve(path))
  {
    hide Closed, Grown, GrownModes, Lookup, ParentDir, DoubledEnd, Kernel.Resolve, DirMode, LockAdded, IsDir;
    MissingPath(kernel, was, path);
    var p := kernel.Resolve(path);
    assert Parent(p) <= p;
    GrownIsAdded(was, now, kernel.Resolve(ParentDir(path)), p);
  }

  lemma GrownIsAdded(was: Tree, now: Tree, q: Path, p: Path)
    requires Grown(was, now, q) && q <= p
    ensures LockAdded(was, now, p)
  {
  }

  lemma NothingAdded(was: Tree, p: Path)
    ensures LockAdded(was, was, p)
  {
  }

  lemma FileAdded(was: Tree, mid: Tree, p: Path, mode: Mode)
    requires LockAdded(was, mid, p) && p !in mid
    ensures LockAdded(was, mid[p := Node(Regular, mode)], p)
  {
  }

  method OpenLock(kernel: Kernel, lockPath: string, events: seq<OpenEvent>, newFD: nat)
    returns (outcome: LockOpen, lockFD: int, ghost dirsMade: nat)
    requires kernel.Valid() && |lockPath| < NPOS
    modifies kernel`tree
    ensures kernel.Valid()
    // However the events fall, the directory is made at most once, and only after an ENOENT.
    ensures dirsMade <= 1
    ensures dirsMade == 1 ==> old(kernel.OpenVerdict(lockPath)).Enoent?
    ensures LockAdded(old(kernel.tree), kernel.tree, kernel.Resolve(lockPath))
    ensures outcome.LockOpened? ==> lockFD == newFD && kernel.Resolve(lockPath) in kernel.tree
    ensures outcome.TermReceived? ==> lockFD == -1
    ensures outcome.CannotOpen? ==> lockFD == 0 || lockFD == -1
    ensures outcome == old(LockResult(kernel, lockPath, events))
    ensures Meets(events).0 == Undisturbed && old(kernel.OpenVerdict(lockPath)).OtherError? ==> lockFD == 0
    ensures !Meets(events).0.Undisturbed? ==> kernel.tree == old(kernel.tree)
  {
    dirsMade := 0;
    var pending := events;
    hide Lookup, Closed, Created, CreateChain, ParentDir, Kernel.OpenVerdict, Kernel.Resolve, Gaps, CanMake,
        CanMakeFile, LockAdded, ParentMade;
    ghost var p := kernel.Resolve(lockPath);
    NothingAdded(kernel.tree, p);
    while true
      invariant kernel.Valid() && dirsMade <= 1
      invariant LockAdded(old(kernel.tree), kernel.tree, p)
      invariant dirsMade == 0 ==> kernel.tree == old(kernel.tree) && Meets(pending) == Meets(events)
      invariant dirsMade == 1 ==> old(kernel.OpenVerdict(lockPath)).Enoent? && !kernel.OpenVerdict(lockPath).Enoent?
      invariant dirsMade == 1 ==> Meets(events).0.Undisturbed? && Meets(pending) == Meets(Meets(events).1)
      invariant dirsMade == 1 ==>
                  && lockPath != "" && ParentMade(kernel, old(kernel.tree), lockPath).1
                  && (kernel.OpenVerdict(lockPath).Opened? <==> CanMakeFile(kernel, lockPath))
      decreases |pending|, 1 - dirsMade
    {
      var event := if pending == [] then Undisturbed else pending[0];
      pending := if pending == [] then [] else pending[1..];
      if event.Interrupted? {
        if event.termReceived {
          return TermReceived, -1, dirsMade;
        }
        continue;
      }
      if event.Refused? {
        return CannotOpen, 0, dirsMade;
      }
      ghost var before := kernel.tree;
      var result := kernel.OpenCreate(lockPath, 0x180);
      if p !in before {
        FileAdded(old(kernel.tree), before, p, FileMode(0x180, kernel.umask));
      }
      if result.Opened? {
        return LockOpened, newFD, dirsMade;
      }
      if !result.Enoent? {
        return CannotOpen, 0, dirsMade;
      }
      var lockDirPath := ParentDir(lockPath);
      if lockDirPath == "" {
        NoDirectoryToMake(kernel, lockPath);
        return CannotOpen, -1, dirsMade;
      }
      NothingThere(kernel, lockPath);
      ghost var was := kernel.tree;
      ParentMadeByCall(kernel, was, lockPath);
      var made := CreateDir(kernel, lockDirPath, S_IRWXU);
      DirectoriesAdded(kernel, was, kernel.tree, lockPath, made);
      if !made {
        return CannotOpen, -1, dirsMade;
      }
      DirectoryHelps(kernel, was, lockPath);
      dirsMade := dirsMade + 1;
    }
  }

  lemma ParentMadeByCall(kernel: Kernel, was: Tree, path: string)
    requires |path| < NPOS && ParentDir(path) != ""
    ensures ParentMade(kernel, was, path) ==
            CreateChain(kernel, was, kernel.Resolve(ParentDir(path)), S_IRWXU, Gaps(kernel, ParentDir(path)))
  {
  }

  lemma NoDirectoryToMake(kernel: Kernel, path: string)
    requires kernel.Valid() && |path| < NPOS && kernel.OpenVerdict(path).Enoent? && ParentDir(path) == ""
    ensures path == ""
  {
    if path != "" {
      EnoentMeansMissing(kernel, path);
    }
  }

  lemma NothingThere(kernel: Kernel, path: string)
    requires kernel.Valid() && |path| < NPOS && kernel.OpenVerdict(path).Enoent? && ParentDir(path) != ""
    ensures 1 <= |path| && Lookup(kernel.tree, kernel.Resolve(path)).NoEntry? && |ParentDir(path)| < |path|
  {
    EnoentMeansMissing(kernel, path);
    ParentIsShorter(path);
  }
}
