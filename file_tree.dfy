/**
  The directory tree the folder cyclers act on: a map from absolute path
  strings to opaque directory contents, changed only by `os.rename` and
  `Path.mkdir(exist_ok=True)`.
*/
module FileTree {
  import opened Wrappers

  /** What a directory holds. The cyclers move contents around and never look inside. */
  datatype Content = Dir(entries: set<string>)

  const EmptyDir: Content := Dir({})

  /** Why `os.rename` raises: FileNotFoundError for a missing source, another OSError for a taken target. */
  datatype RenameError = SourceMissing(path: string) | TargetExists(path: string)

  /** The error `os.rename(src, dst)` raises on the tree `fs`, or None when it succeeds. */
  function RenameFailure(fs: map<string, Content>, src: string, dst: string): (e: Option<RenameError>)
    ensures e == None <==> src in fs && (dst !in fs || dst == src)
    ensures e.Some? && src !in fs ==> e.value == SourceMissing(src)
  {
    if src !in fs then Some(SourceMissing(src))
    else if dst in fs && dst != src then Some(TargetExists(dst))
    else None
  }

  /** The tree after a successful rename: what sat at `src` now sits at `dst`, and nothing else moved. */
  function Moved(fs: map<string, Content>, src: string, dst: string): (r: map<string, Content>)
    requires src in fs
    ensures dst in r && r[dst] == fs[src]
    ensures src != dst ==> src !in r
    ensures forall p :: p != src && p != dst ==> (p in r <==> p in fs)
    ensures forall p :: p != src && p != dst && p in r ==> r[p] == fs[p]
  {
    (fs - {src})[dst := fs[src]]
  }

  /** The tree after `Path(p).mkdir(exist_ok=True)`. */
  function Made(fs: map<string, Content>, p: string): (r: map<string, Content>)
    ensures p in r && (p in fs ==> r == fs)
    ensures p !in fs ==> r[p] == EmptyDir
    ensures forall q :: q != p ==> (q in r <==> q in fs)
    ensures forall q :: q != p && q in r ==> r[q] == fs[q]
  {
    if p in fs then fs else fs[p := EmptyDir]
  }

  /** The result of one cycler call: a status message, or the error it raised. */
  datatype Outcome = Active(message: string) | NotFound | Refused(path: string)

  /**
    A missing source surfaces as FileNotFoundError (NotFound). The main block
    of helpful_cakes/rename_folder.py catches it and logs `error_message`;
    script/rename_folder.py does not catch it, so the exception propagates.
  */
  function Failed(e: RenameError): (o: Outcome)
    ensures o.Active? == false
    ensures o.NotFound? <==> e.SourceMissing?
  {
    match e
    case SourceMissing(_) => NotFound
    case TargetExists(p) => Refused(p)
  }

  /** An outcome together with the tree it leaves behind. */
  datatype Step = Step(outcome: Outcome, tree: map<string, Content>)

  /**
    Two renames in a row, `base` to `target` and then `from` to `base`,
    stopping at the first that raises; on success the outcome is `message`.
  */
  function Swap(fs: map<string, Content>, base: string, target: string, from: string, message: string): (s: Step)
    ensures s.outcome.Active? ==> s.outcome.message == message
    ensures forall p :: p != base && p != target && p != from ==> (p in s.tree <==> p in fs)
    ensures forall p :: p != base && p != target && p != from && p in s.tree ==> s.tree[p] == fs[p]
  {
    match RenameFailure(fs, base, target)
    case Some(e) => Step(Failed(e), fs)
    case None =>
      var fs1 := Moved(fs, base, target);
      match RenameFailure(fs1, from, base)
      case Some(e) => Step(Failed(e), fs1)
      case None => Step(Active(message), Moved(fs1, from, base))
  }

  /** Both renames went through: the base and the target exist and the source is gone. */
  lemma SwapActive(fs: map<string, Content>, base: string, target: string, from: string, message: string)
    requires base != target && base != from && target != from
    requires Swap(fs, base, target, from, message).outcome.Active?
    ensures var t := Swap(fs, base, target, from, message).tree;
      base in t && target in t && from !in t
  {
  }

  /** The file system: its tree is the only state. */
  class FileSystem {
    var tree: map<string, Content>

    constructor (tree: map<string, Content>)
      ensures this.tree == tree
    {
      this.tree := tree;
    }

    /** `os.rename(src, dst)`: moves one entry, or raises and changes nothing. */
    method Rename(src: string, dst: string) returns (err: Option<RenameError>)
      modifies this
      ensures err == RenameFailure(old(tree), src, dst)
      ensures tree == if err.None? then Moved(old(tree), src, dst) else old(tree)
    {
      err := RenameFailure(tree, src, dst);
      if err.None? {
        tree := (tree - {src})[dst := tree[src]];
      }
    }

    /** `Path(p).mkdir(exist_ok=True)`: creates an empty directory unless one is there. */
    method Mkdir(p: string)
      modifies this
      ensures tree == Made(old(tree), p)
    {
      if p !in tree {
        tree := tree[p := EmptyDir];
      }
    }
  }

  /** The two `os.rename` calls of `__rename_folder`, in order; `message` is returned when both succeed. */
  method SwapFolders(fs: FileSystem, base: string, target: string, from: string, message: string)
    returns (o: Outcome)
    modifies fs
    ensures Step(o, fs.tree) == Swap(old(fs.tree), base, target, from, message)
  {
    var err := fs.Rename(base, target);
    if err.Some? {
      return Failed(err.value);
    }
    err := fs.Rename(from, base);
    if err.Some? {
      return Failed(err.value);
    }
    return Active(message);
  }
}
