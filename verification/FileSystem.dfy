/**
 The kernel's directory tree, without symbolic links.  A file is named by the components
 of its path from the root; "." and ".." are components like any other.
 */
module FileSystem {
  import opened Text

  /** The twelve permission bits of mode_t. */
  type Mode = bv12

  const S_IRWXU: Mode := 0x1C0

  datatype Kind = Regular | Directory | CharDevice | BlockDevice | NamedPipe | Socket

  datatype Node = Node(kind: Kind, mode: Mode)

  type Path = seq<string>

  /** Everything below the root; the root itself is always a directory. */
  type Tree = map<Path, Node>

  predicate IsDir(tree: Tree, p: Path) {
    p == [] || (p in tree && tree[p].kind.Directory?)
  }

  function Parent(p: Path): Path
    requires p != []
  {
    p[..|p| - 1]
  }

  /** Every file lies in a directory. */
  ghost predicate Closed(tree: Tree) {
    forall p :: p in tree ==> p != [] && IsDir(tree, Parent(p))
  }

  datatype Found = Entry(node: Node) | NoEntry | NotDir

  /** Walking down the components: ENOENT at the first that is missing, ENOTDIR below a plain file. */
  function Lookup(tree: Tree, p: Path): Found {
    if p == [] then Entry(Node(Directory, 0x1ED))
    else
      match Lookup(tree, Parent(p))
      case Entry(node) =>
        if !node.kind.Directory? then NotDir else if p in tree then Entry(tree[p]) else NoEntry
      case error => error
  }

  /** In a closed tree the walk finds a file exactly when the file is there. */
  lemma {:induction false} LookupFinds(tree: Tree, p: Path)
    requires Closed(tree)
    ensures Lookup(tree, p).Entry? <==> p == [] || p in tree
    ensures p in tree ==> Lookup(tree, p) == Entry(tree[p])
    ensures IsDir(tree, p) <==> Lookup(tree, p).Entry? && Lookup(tree, p).node.kind.Directory?
  {
    if p != [] {
      LookupFinds(tree, Parent(p));
    }
  }

  /** Prefixes of a file that exists are directories. */
  lemma {:induction false} PrefixIsDir(tree: Tree, p: Path, q: Path)
    requires Closed(tree) && (p == [] || p in tree) && q < p
    ensures IsDir(tree, q)
    decreases |p|
  {
    if q != Parent(p) {
      assert q < Parent(p);
      PrefixIsDir(tree, Parent(p), q);
    }
  }

  function Components(path: string): Path {
    Pieces(path, {'/'})
  }

  predicate IsAbsolute(path: string) {
    path != "" && path[0] == '/'
  }

  predicate EndsWithSlash(path: string) {
    path != "" && path[|path| - 1] == '/'
  }

  /** What mkdir, and mkfifo and open, make of a requested mode. */
  function DirMode(mode: Mode, umask: Mode): Mode { mode & !umask & 0x3FF }

  function FileMode(mode: Mode, umask: Mode): Mode { mode & !umask }

  datatype OpenResult = Opened | Enoent | OtherError

  class Kernel {
    var tree: Tree
    const cwd: Path
    const umask: Mode
    /** Directories in which this process may not create anything. */
    const denied: set<Path>

    constructor (tree: Tree, cwd: Path, umask: Mode, denied: set<Path>)
      requires Closed(tree) && IsDir(tree, cwd)
      ensures Valid() && this.tree == tree && this.cwd == cwd && this.umask == umask && this.denied == denied
    {
      this.tree, this.cwd, this.umask, this.denied := tree, cwd, umask, denied;
    }

    ghost predicate Valid()
      reads this
    {
      Closed(tree) && IsDir(tree, cwd)
    }

    function Resolve(path: string): Path {
      if IsAbsolute(path) then Components(path) else cwd + Components(path)
    }

    /** stat, lstat and access alike, as there are no links. */
    function Stat(path: string): Found
      reads this
    {
      if path == "" then NoEntry
      else
        var found := Lookup(tree, Resolve(path));
        if found.Entry? && !found.node.kind.Directory? && EndsWithSlash(path) then NotDir else found
    }

    /** Whether a new entry can be made at `p`. */
    predicate CanCreate(p: Path)
      reads this
    {
      p != [] && p !in tree && IsDir(tree, Parent(p)) && Parent(p) !in denied
    }

    method Mkdir(path: string, mode: Mode) returns (ok: bool)
      requires Valid()
      modifies this`tree
      ensures Valid()
      ensures ok == (path != "" && old(CanCreate(Resolve(path))))
      ensures tree == if ok then old(tree)[Resolve(path) := Node(Directory, DirMode(mode, umask))] else old(tree)
    {
      ok := path != "" && CanCreate(Resolve(path));
      if ok {
        tree := tree[Resolve(path) := Node(Directory, DirMode(mode, umask))];
      }
    }

    method Mkfifo(path: string, mode: Mode) returns (ok: bool)
      requires Valid()
      modifies this`tree
      ensures Valid()
      ensures ok == (path != "" && !EndsWithSlash(path) && old(CanCreate(Resolve(path))))
      ensures tree == if ok then old(tree)[Resolve(path) := Node(NamedPipe, FileMode(mode, umask))] else old(tree)
    {
      ok := path != "" && !EndsWithSlash(path) && CanCreate(Resolve(path));
      if ok {
        tree := tree[Resolve(path) := Node(NamedPipe, FileMode(mode, umask))];
      }
    }

    /** What open with O_CREAT and O_RDWR would do here. */
    function OpenVerdict(path: string): OpenResult
      reads this
    {
      if path == "" then Enoent
      else
        var p := Resolve(path);
        match Lookup(tree, p)
        case Entry(node) =>
          if node.kind.Directory? || node.kind.Socket? || EndsWithSlash(path) then OtherError else Opened
        case NotDir => OtherError
        case NoEntry =>
          if p == [] || !IsDir(tree, Parent(p)) then Enoent
          else if EndsWithSlash(path) || Parent(p) in denied then OtherError
          else Opened
    }

    method OpenCreate(path: string, mode: Mode) returns (result: OpenResult)
      requires Valid()
      modifies this`tree
      ensures Valid()
      ensures result == old(OpenVerdict(path))
      ensures result.Opened? ==> Resolve(path) in tree && !tree[Resolve(path)].kind.Directory?
      ensures tree == if result.Opened? && Resolve(path) !in old(tree)
                      then old(tree)[Resolve(path) := Node(Regular, FileMode(mode, umask))] else old(tree)
    {
      LookupFinds(tree, Resolve(path));
      result := OpenVerdict(path);
      if result.Opened? && Resolve(path) !in tree {
        tree := tree[Resolve(path) := Node(Regular, FileMode(mode, umask))];
      }
    }
  }
}
