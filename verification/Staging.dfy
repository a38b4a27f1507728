/** layers.Stage: a function's layers copied, one after the other, into a staging directory rebuilt from nothing. */
module Staging {
  import opened Trees
  import opened Options
  import opened ZipNames

  const MARKER: Path := [".codesha256"]
  const DEFAULT_PERM: Perm := 0x1A4   // 0644

  // ---------------------------------------------------------------------------------------------
  // What a layer is
  // ---------------------------------------------------------------------------------------------

  /** A directory that is read: it may hold what a layer must not, or may but is not staged. */
  datatype SrcNode = SrcDir | SrcFile(data: Bytes, perm: Perm) | Symlink | Other
  type SrcTree = map<Path, SrcNode>

  /** What a file system can show of a directory; the directory itself may be a link, which os.Stat follows. */
  ghost predicate Walkable(src: SrcTree) {
    && [] in src && (src[[]].SrcDir? || (src[[]].Symlink? && src.Keys == {[]}))
    && forall p, q :: p in src && Above(q, p) && q != p ==> q in src && src[q].SrcDir?
  }

  predicate NoLinks(src: SrcTree) { forall p :: p in src ==> !src[p].Symlink? }

  /** What copyTree takes from it: directories and regular files. */
  function Plain(src: SrcTree): Tree {
    map p | p in src && (src[p].SrcDir? || src[p].SrcFile?) ::
      if src[p].SrcDir? then Dir else File(src[p].data, src[p].perm)
  }

  /** A zip entry; its kind is what its mode says. */
  datatype Kind = IsLink | IsDir | IsFile
  datatype Entry = Entry(name: string, kind: Kind, data: Bytes, perm: Perm)

  /** What is at the place a layer's reference names. */
  datatype Source = Absent | Directory(tree: SrcTree) | Zip(entries: seq<Entry>) | OtherFile

  datatype Layer = Arn(cached: Source) | Local(source: Source) | UnknownKind

  // ---------------------------------------------------------------------------------------------
  // What staging means
  // ---------------------------------------------------------------------------------------------

  function Landing(target: Name, name: string): Name { Join(target, CleanName(name)) }

  /** filepath.Clean gives ".". */
  predicate IsDot(name: string) { CleanName(name) == Name(false, []) }

  predicate EntryOk(target: Name, e: Entry) {
    !e.kind.IsLink? && (IsDot(e.name) || Beneath(target, Landing(target, e.name)))
  }

  function EntryPerm(e: Entry): Perm { if e.perm == 0 then DEFAULT_PERM else e.perm }

  function EntryNode(e: Entry): Node { if e.kind.IsDir? then Dir else File(e.data, EntryPerm(e)) }

  function EntryTree(target: Name, e: Entry): Tree
    requires EntryOk(target, e)
  {
    if IsDot(e.name) then map[] else Chain(Landing(target, e.name).segs[|target.segs|..], EntryNode(e))
  }

  /** The entries up to the first n, a later one over an earlier one. */
  function ZipTree(target: Name, entries: seq<Entry>, n: nat): Tree
    requires n <= |entries| && forall i :: 0 <= i < n ==> EntryOk(target, entries[i])
  {
    if n == 0 then map[] else ZipTree(target, entries, n - 1) + EntryTree(target, entries[n - 1])
  }

  ghost predicate Consistent(target: Name, entries: seq<Entry>, n: nat)
    requires n <= |entries| && forall i :: 0 <= i < n ==> EntryOk(target, entries[i])
  {
    n == 0 || (Consistent(target, entries, n - 1)
               && Compatible(ZipTree(target, entries, n - 1), EntryTree(target, entries[n - 1])))
  }

  ghost predicate SourceOk(target: Name, s: Source) {
    match s
    case Directory(tree) => NoLinks(tree)
    case Zip(entries) =>
      (forall i :: 0 <= i < |entries| ==> EntryOk(target, entries[i])) && Consistent(target, entries, |entries|)
    case _ => false
  }

  /** A layer on its own, as it will lie in the staging directory. */
  function SourceTree(target: Name, s: Source): Tree
    requires SourceOk(target, s)
  {
    match s
    case Directory(tree) => Plain(tree)
    case Zip(entries) => ZipTree(target, entries, |entries|)
  }

  ghost predicate Fits(target: Name, t: Tree, s: Source) {
    SourceOk(target, s) && Compatible(t, SourceTree(target, s))
  }

  /** os.Remove can take it: a file, an empty directory, or nothing at all. */
  ghost predicate Removable(t: Tree, p: Path) { forall q :: q in t && Above(p, q) ==> q == p }

  ghost predicate LayerFits(target: Name, t: Tree, l: Layer) {
    match l
    case Arn(s) => s.Directory? && Fits(target, t, s) && Removable(t + SourceTree(target, s), MARKER)
    case Local(s) => Fits(target, t, s)
    case UnknownKind => false
  }

  /** One layer over what is staged; an ARN's takes the cache marker away. */
  ghost function Over(target: Name, t: Tree, l: Layer): Tree
    requires LayerFits(target, t, l)
  {
    match l
    case Arn(s) => t + SourceTree(target, s) - {MARKER}
    case Local(s) => t + SourceTree(target, s)
  }

  /** The left-to-right fold of the layers, if every one of them fits over what is staged before it. */
  ghost function Merged(target: Name, layers: seq<Layer>): Option<Tree> {
    if layers == [] then Some(map[[] := Dir]) else
      match Merged(target, layers[..|layers| - 1])
      case None => None
      case Some(t) =>
        var l := layers[|layers| - 1];
        if LayerFits(target, t, l) then Some(Over(target, t, l)) else None
  }

  // ---------------------------------------------------------------------------------------------
  // Doing it
  // ---------------------------------------------------------------------------------------------

  /** Rejected is what the layers deserve; any step may fail for other reasons. */
  datatype Outcome = Ok | Rejected | IoFailed

  class Disk {
    var fs: Tree
    const umask: Perm
    const cwd: Path                   // the working directory, its links followed

    ghost predicate Ready(dst: Path)
      reads this
    {
      Closed(fs) && dst in fs && fs[dst].Dir?
    }

    method MkdirAll(path: Path) returns (r: Outcome)
      requires Closed(fs)
      modifies this`fs
      ensures Closed(fs) && Grown(old(fs), fs, path)
      ensures r == Ok ==> Compatible(old(fs), Chain(path, Dir)) && fs == old(fs) + Chain(path, Dir)
      ensures r == Rejected ==> !Compatible(old(fs), Chain(path, Dir))
    {
      ghost var was := fs;
      assert fs == was + Chain([], Dir);
      for k := 1 to |path| + 1
        invariant Compatible(was, Chain(path[..k - 1], Dir)) && fs == was + Chain(path[..k - 1], Dir)
      {
        ChainGrows(path, k);
        if path[..k] in fs && !fs[path[..k]].Dir? { return Rejected; }
        if path[..k] !in fs {
          if * { ClosedAfterChain(was, path[..k - 1], Dir); return IoFailed; }
          fs := fs[path[..k] := Dir];
        }
      }
      assert path[..|path|] == path;
      ClosedAfterChain(was, path, Dir);
      r := Ok;
    }

    /** os.OpenFile with O_CREATE, O_TRUNC: a file that is there is emptied and keeps its mode, a new one is masked. */
    method OpenTrunc(path: Path, perm: Perm) returns (r: Outcome)
      requires path != [] && path[..|path| - 1] in fs && fs[path[..|path| - 1]].Dir?
      modifies this`fs
      ensures r == Rejected <==> path in old(fs) && old(fs)[path].Dir?
      ensures r == Ok ==> fs == old(fs)[path := File([], if path in old(fs) then old(fs)[path].perm else perm & !umask)]
      ensures r != Ok ==> fs == old(fs)
    {
      if path in fs && fs[path].Dir? { return Rejected; }
      if * { return IoFailed; }
      fs := fs[path := File([], if path in fs then fs[path].perm else perm & !umask)];
      r := Ok;
    }

    /** io.Copy: all of the data, or what came before a failure. */
    method Write(path: Path, data: Bytes) returns (ok: bool)
      requires path in fs && fs[path].File?
      modifies this`fs
      ensures path in fs && fs == old(fs)[path := fs[path]] && fs[path].File? && fs[path].perm == old(fs)[path].perm
      ensures ok ==> fs[path].data == old(fs)[path].data + data
    {
      for k := 0 to |data|
        invariant path in fs && fs[path].File? && fs == old(fs)[path := fs[path]]
        invariant fs[path] == old(fs)[path].(data := old(fs)[path].data + data[..k])
      {
        if * { return false; }
        fs := fs[path := fs[path].(data := fs[path].data + [data[k]])];
        assert data[..k + 1] == data[..k] + [data[k]];
      }
      ok := true;
    }

    method Chmod(path: Path, perm: Perm) returns (ok: bool)
      requires path in fs && fs[path].File?
      modifies this`fs
      ensures fs == if ok then old(fs)[path := old(fs)[path].(perm := perm)] else old(fs)
    {
      if * { return false; }
      fs := fs[path := fs[path].(perm := perm)];
      ok := true;
    }

    /** A file emptied, written and given its mode. */
    method Overwrite(path: Path, data: Bytes, perm: Perm) returns (r: Outcome)
      requires path != [] && path[..|path| - 1] in fs && fs[path[..|path| - 1]].Dir?
      modifies this`fs
      ensures fs == old(fs) || (path in fs && fs == old(fs)[path := fs[path]] && fs[path].File?)
      ensures r == Rejected ==> path in old(fs) && old(fs)[path].Dir?
      ensures path in old(fs) && old(fs)[path].Dir? ==> r != Ok && fs == old(fs)
      ensures r == Ok ==> fs == old(fs)[path := File(data, perm)]
    {
      r := OpenTrunc(path, perm);
      if r != Ok { return; }
      var ok := Write(path, data);
      if !ok { return IoFailed; }
      assert [] + data == data;
      ok := Chmod(path, perm);
      if !ok { return IoFailed; }
    }

    /** How copyFile and extractZipEntry put a file in place. */
    method PutFile(path: Path, data: Bytes, perm: Perm) returns (r: Outcome)
      requires Closed(fs) && path != []
      modifies this`fs
      ensures Closed(fs) && Touched(old(fs), fs, path)
      ensures r == Ok ==>
                && Compatible(old(fs), Chain(path, File(data, perm)))
                && fs == old(fs) + Chain(path, File(data, perm))
      ensures r == Rejected ==> !Compatible(old(fs), Chain(path, File(data, perm)))
    {
      ghost var was := fs;
      var parent := path[..|path| - 1];
      r := MkdirAll(parent);
      ghost var made := fs;
      ParentChain(path, File(data, perm));
      if r != Ok { return; }
      r := Overwrite(path, data, perm);
      if fs != made { FileIn(was, made, fs, path); }
    }

    /** The same two beneath a directory, seen from there. */
    method MkdirIn(dst: Path, p: Path) returns (r: Outcome)
      requires Ready(dst)
      modifies this`fs
      ensures Ready(dst) && Outside(fs, dst) == Outside(old(fs), dst)
      ensures r == Ok ==>
                && Compatible(old(Sub(fs, dst)), Chain(p, Dir))
                && Sub(fs, dst) == old(Sub(fs, dst)) + Chain(p, Dir)
      ensures r == Rejected ==> !Compatible(old(Sub(fs, dst)), Chain(p, Dir))
    {
      ghost var was := fs;
      r := MkdirAll(dst + p);
      TouchedBelow(was, fs, dst, p);
      CompatibleBelow(was, dst, p, Dir);
      SubOfChain(was, dst, p, Dir);
    }

    method PutIn(dst: Path, p: Path, data: Bytes, perm: Perm) returns (r: Outcome)
      requires Ready(dst) && dst != []
      modifies this`fs
      ensures Ready(dst) && Outside(fs, dst) == Outside(old(fs), dst)
      ensures r == Ok ==>
                && Compatible(old(Sub(fs, dst)), Chain(p, File(data, perm)))
                && Sub(fs, dst) == old(Sub(fs, dst)) + Chain(p, File(data, perm))
      ensures r == Rejected ==> !Compatible(old(Sub(fs, dst)), Chain(p, File(data, perm)))
    {
      ghost var was := fs;
      r := PutFile(dst + p, data, perm);
      TouchedBelow(was, fs, dst, p);
      CompatibleBelow(was, dst, p, File(data, perm));
      SubOfChain(was, dst, p, File(data, perm));
    }

    /** What copyTree does at one path of the tree it walks. */
    method CopyNode(src: SrcTree, dst: Path, p: Path) returns (r: Outcome)
      requires Ready(dst) && dst != [] && p in src && (p == [] ==> !src[p].SrcFile?)
      modifies this`fs
      ensures Ready(dst) && Outside(fs, dst) == Outside(old(fs), dst)
      ensures r == Ok ==>
                && !src[p].Symlink? && Compatible(old(Sub(fs, dst)), ChainOf(src, p))
                && Sub(fs, dst) == old(Sub(fs, dst)) + ChainOf(src, p)
      ensures r == Rejected ==> src[p].Symlink? || !Compatible(old(Sub(fs, dst)), ChainOf(src, p))
    {
      match src[p] {
        case Symlink => return Rejected;
        case Other => return Ok;
        case SrcDir =>
          if p == [] { assert dst + [] == dst; return Ok; }
          r := MkdirIn(dst, p);
        case SrcFile(data, perm) => r := PutIn(dst, p, data, perm);
      }
    }

    method RemoveIn(dst: Path, p: Path) returns (r: Outcome)
      requires Ready(dst) && p != []
      modifies this`fs
      ensures Ready(dst) && Outside(fs, dst) == Outside(old(fs), dst)
      ensures r == Ok ==> Removable(old(Sub(fs, dst)), p) && Sub(fs, dst) == old(Sub(fs, dst)) - {p}
      ensures r == Rejected ==> !Removable(old(Sub(fs, dst)), p)
    {
      RemovableBelow(fs, dst, p);
      ghost var was := fs;
      r := Remove(dst + p);
      if r == Ok { WithoutBelow(was, dst, p); }
    }

    /** copyTree, in whatever order the tree is walked. */
    method CopyTree(src: SrcTree, dst: Path) returns (r: Outcome)
      requires Ready(dst) && dst != [] && Walkable(src)
      modifies this`fs
      ensures Ready(dst) && Outside(fs, dst) == Outside(old(fs), dst)
      ensures r == Ok ==>
                && NoLinks(src) && Compatible(old(Sub(fs, dst)), Plain(src))
                && Sub(fs, dst) == old(Sub(fs, dst)) + Plain(src)
      ensures r == Ok ==> forall p :: p in src && src[p].SrcFile? ==>
                            p in Sub(fs, dst) && Sub(fs, dst)[p] == File(src[p].data, src[p].perm)
      ensures r == Rejected ==> !(NoLinks(src) && Compatible(old(Sub(fs, dst)), Plain(src)))
    {
      ghost var was := Sub(fs, dst);
      ghost var part: Tree := map[];
      var rest := src.Keys;
      while rest != {}
        invariant rest <= src.Keys && Ready(dst) && Outside(fs, dst) == Outside(old(fs), dst)
        invariant Sub(fs, dst) == was + part && Copied(was, part, src, rest)
      {
        var p :| p in rest;
        CopiesOne(was, part, src, rest, p);
        OverOver(was, part, ChainOf(src, p));
        r := CopyNode(src, dst, p);
        if r != Ok { return; }
        part := part + ChainOf(src, p);
        rest := rest - {p};
      }
      CopiedAll(was, part, src);
      r := Ok;
    }

    /** extractZipEntry. */
    method ExtractEntry(e: Entry, target: Name, dst: Path) returns (r: Outcome)
      requires Ready(dst) && dst != [] && IsClean(target) && dst == Resolve(cwd, target)
      modifies this`fs
      ensures Ready(dst) && Outside(fs, dst) == Outside(old(fs), dst)
      ensures r == Ok ==>
                && EntryOk(target, e) && Compatible(old(Sub(fs, dst)), EntryTree(target, e))
                && Sub(fs, dst) == old(Sub(fs, dst)) + EntryTree(target, e)
      ensures r == Ok ==> Extracted(target, e, old(Sub(fs, dst)), Sub(fs, dst))
      ensures r == Rejected ==> !EntryOk(target, e) || !Compatible(old(Sub(fs, dst)), EntryTree(target, e))
    {
      ghost var was := Sub(fs, dst);
      if EntryOk(target, e) { EntryExtracted(target, e, was); }
      if e.kind.IsLink? { return Rejected; }
      if IsDot(e.name) { return Ok; }
      var dest := Landing(target, e.name);
      JoinIsClean(target, CleanName(e.name));
      WithinIsBeneath(target, dest);
      if !IsWithin(target, dest) { return Rejected; }
      var rel := dest.segs[|target.segs|..];
      BeneathResolves(cwd, target, dest);
      assert Resolve(cwd, dest) == dst + rel;
      if e.kind.IsDir? {
        r := MkdirIn(dst, rel);
      } else {
        r := PutIn(dst, rel, e.data, EntryPerm(e));
      }
    }

    /** extractZip, of an archive that opens. */
    method ExtractZip(entries: seq<Entry>, target: Name, dst: Path) returns (r: Outcome)
      requires Ready(dst) && dst != [] && IsClean(target) && dst == Resolve(cwd, target)
      modifies this`fs
      ensures Ready(dst) && Outside(fs, dst) == Outside(old(fs), dst)
      ensures r == Ok ==>
                && Fits(target, old(Sub(fs, dst)), Zip(entries))
                && Sub(fs, dst) == old(Sub(fs, dst)) + ZipTree(target, entries, |entries|)
      ensures r == Rejected ==> !Fits(target, old(Sub(fs, dst)), Zip(entries))
    {
      ghost var was := Sub(fs, dst);
      ZipFitsWhole(target, was, entries);
      for k := 0 to |entries|
        invariant Ready(dst) && Outside(fs, dst) == Outside(old(fs), dst)
        invariant ZipFits(target, was, entries, k) && Sub(fs, dst) == was + ZipTree(target, entries, k)
      {
        ZipFitsOne(target, was, entries, k);
        r := ExtractEntry(entries[k], target, dst);
        if r != Ok {
          if Fits(target, was, Zip(entries)) { ZipFitsLess(target, was, entries, k + 1, |entries|); }
          return;
        }
        OverOver(was, ZipTree(target, entries, k), EntryTree(target, entries[k]));
      }
      r := Ok;
    }

    /** os.RemoveAll, one entry after the other, each once it is empty; of the root it removes all but itself, and
        fails. */
    method RemoveAll(path: Path) returns (ok: bool)
      requires Closed(fs)
      modifies this`fs
      ensures Closed(fs) && Outside(fs, path) == Outside(old(fs), path)
      ensures ok ==> path != [] && fs == Outside(old(fs), path)
    {
      while exists p :: p in fs && Above(path, p)
        invariant Closed(fs) && Outside(fs, path) == Outside(old(fs), path)
        decreases fs.Keys
      {
        ghost var any :| any in fs && Above(path, any);
        SomeLeaf(fs, any);
        var p :| p in fs && Above(path, p) && forall q :: q in fs && Above(p, q) ==> q == p;
        if * { return false; }
        if p == [] { return false; }    // the root stays
        WithoutLeaf(fs, path, p);
        fs := fs - {p};
      }
      assert fs == Outside(fs, path);
      ok := true;
    }

    /** os.Remove, a path that is not there being no error to the caller. */
    method Remove(path: Path) returns (r: Outcome)
      requires Closed(fs) && path != []
      modifies this`fs
      ensures r == Ok ==> Removable(old(fs), path) && fs == old(fs) - {path}
      ensures r == Rejected ==> !Removable(old(fs), path)
      ensures r != Ok ==> fs == old(fs)
    {
      if exists q :: q in fs && Above(path, q) && q != path { return Rejected; }
      if * { return IoFailed; }
      fs := fs - {path};
      r := Ok;
    }

    /** resolveARN: the cached directory, without the marker its fetch left in it. */
    method ResolveARN(cached: Source, staging: Name, dst: Path) returns (r: Outcome)
      requires Ready(dst) && dst != [] && SourceReadable(cached)
      modifies this`fs
      ensures Closed(fs) && Outside(fs, dst) == Outside(old(fs), dst)
      ensures r == Ok ==>
                && LayerFits(staging, old(Sub(fs, dst)), Arn(cached)) && Ready(dst)
                && Sub(fs, dst) == Over(staging, old(Sub(fs, dst)), Arn(cached))
      ensures r == Rejected ==> !LayerFits(staging, old(Sub(fs, dst)), Arn(cached))
    {
      if !cached.Directory? { return Rejected; }
      ghost var was := Sub(fs, dst);
      r := CopyTree(cached.tree, dst);
      if r != Ok { return; }
      r := RemoveIn(dst, MARKER);
    }

    /** resolvePath: a directory or a zip file; anything else is refused. */
    method ResolvePath(source: Source, staging: Name, dst: Path) returns (r: Outcome)
      requires Ready(dst) && dst != [] && IsClean(staging) && dst == Resolve(cwd, staging) && SourceReadable(source)
      modifies this`fs
      ensures Closed(fs) && Outside(fs, dst) == Outside(old(fs), dst)
      ensures r == Ok ==>
                && LayerFits(staging, old(Sub(fs, dst)), Local(source)) && Ready(dst)
                && Sub(fs, dst) == Over(staging, old(Sub(fs, dst)), Local(source))
      ensures r == Rejected ==> !LayerFits(staging, old(Sub(fs, dst)), Local(source))
    {
      match source {
        case Absent => r := Rejected;
        case OtherFile => r := Rejected;
        case Directory(tree) => r := CopyTree(tree, dst);
        case Zip(entries) =>
          if * { return IoFailed; }
          r := ExtractZip(entries, staging, dst);
      }
    }

    method ResolveInto(l: Layer, staging: Name, dst: Path) returns (r: Outcome)
      requires Ready(dst) && dst != [] && IsClean(staging) && dst == Resolve(cwd, staging) && LayerReadable(l)
      modifies this`fs
      ensures Closed(fs) && Outside(fs, dst) == Outside(old(fs), dst)
      ensures r == Ok ==>
                && LayerFits(staging, old(Sub(fs, dst)), l) && Ready(dst)
                && Sub(fs, dst) == Over(staging, old(Sub(fs, dst)), l)
      ensures r == Rejected ==> !LayerFits(staging, old(Sub(fs, dst)), l)
    {
      match l {
        case Arn(cached) => r := ResolveARN(cached, staging, dst);
        case Local(source) => r := ResolvePath(source, staging, dst);
        case UnknownKind => r := Rejected;
      }
    }

    /** An empty directory, whatever was there. */
    method MakeAnew(dst: Path) returns (r: Outcome)
      requires Closed(fs)
      modifies this`fs
      ensures Closed(fs) && Grown(Outside(old(fs), dst), Outside(fs, dst), dst)
      ensures r == Ok ==> dst != [] && Ready(dst) && Sub(fs, dst) == map[[] := Dir]
      ensures r == Rejected ==> !Compatible(Outside(old(fs), dst), Chain(dst, Dir))
    {
      var ok := RemoveAll(dst);
      if !ok { return IoFailed; }
      ghost var cleared := fs;
      r := MkdirAll(dst);
      MadeEmpty(old(fs), cleared, fs, dst);
    }

    /** Stage, whatever the staging directory held before. The cache directory may be absolute or relative, and the name
        is any at all: nothing checks the one a manifest gives. os.RemoveAll refuses ".". */
    method Stage(fnName: string, layers: seq<Layer>, cacheDir: Name) returns (r: Outcome)
      requires Closed(fs) && IsClean(cacheDir) && forall l :: l in layers ==> LayerReadable(l)
      modifies this`fs
      ensures var dst := Resolve(cwd, StagingDir(cacheDir, fnName));
              Closed(fs) && Grown(Outside(old(fs), dst), Outside(fs, dst), dst)
      ensures layers == [] ==> r == Ok && fs == old(fs)
      ensures r == Ok && layers != [] ==>
                var staging := StagingDir(cacheDir, fnName);
                var dst := Resolve(cwd, staging);
                && Ready(dst) && Merged(staging, layers) == Some(Sub(fs, dst))
                && Closed(Sub(fs, dst))
      ensures r == Rejected ==>
                var staging := StagingDir(cacheDir, fnName);
                var dst := Resolve(cwd, staging);
                Merged(staging, layers) == None || !Compatible(Outside(old(fs), dst), Chain(dst, Dir))
    {
      if layers == [] { return Ok; }
      var staging := StagingDir(cacheDir, fnName);
      JoinBelowIsJoin(cacheDir, "staging", fnName);
      if staging == Name(false, []) { return IoFailed; }
      r := StageAt(layers, staging, Resolve(cwd, staging));
    }

    method StageAt(layers: seq<Layer>, staging: Name, dst: Path) returns (r: Outcome)
      requires Closed(fs) && IsClean(staging) && dst == Resolve(cwd, staging)
      requires forall l :: l in layers ==> LayerReadable(l)
      modifies this`fs
      ensures Closed(fs) && Grown(Outside(old(fs), dst), Outside(fs, dst), dst)
      ensures r == Ok ==> Ready(dst) && Merged(staging, layers) == Some(Sub(fs, dst)) && Closed(Sub(fs, dst))
      ensures r == Rejected ==>
                Merged(staging, layers) == None || !Compatible(Outside(old(fs), dst), Chain(dst, Dir))
    {
      r := MakeAnew(dst);
      if r != Ok { return; }
      ghost var outside := Outside(fs, dst);
      for k := 0 to |layers|
        invariant Ready(dst) && Outside(fs, dst) == outside
        invariant r == Ok && Merged(staging, layers[..k]) == Some(Sub(fs, dst))
      {
        MergedOne(staging, layers, k);
        r := ResolveInto(layers[k], staging, dst);
        if r == Rejected { NoneStays(staging, layers, k + 1); }
        if r != Ok { return; }
      }
      assert layers[..|layers|] == layers;
      ClosedBelow(fs, dst);
    }
  }

  /** stagingDir. */
  function StagingDir(cacheDir: Name, fnName: string): Name { JoinBelow(cacheDir, "staging", fnName) }

  /** The directory that staging directories are meant to be in. */
  function StagingRoot(cacheDir: Name): Name { Name(cacheDir.rooted, cacheDir.segs + ["staging"]) }

  /** Where the staging directory is: for a name that does not climb, at its cleaned path in the root of staging
      directories, and whenever it is in there, it is so in whatever working directory. */
  lemma StagingDirIsBelow(cwd: Path, cacheDir: Name, fnName: string)
    requires IsClean(cacheDir)
    ensures var n := StagingDir(cacheDir, fnName);
            && IsClean(n)
            && (Clean(Relative(fnName)) ==> n == Name(cacheDir.rooted, StagingRoot(cacheDir).segs + Relative(fnName)))
            && (Beneath(StagingRoot(cacheDir), n) ==> Above(Resolve(cwd, StagingRoot(cacheDir)), Resolve(cwd, n)))
  {
    JoinBelowIsJoin(cacheDir, "staging", fnName);
    if Clean(Relative(fnName)) { PlainNameBelow(cacheDir, "staging", fnName); }
    if Beneath(StagingRoot(cacheDir), StagingDir(cacheDir, fnName)) {
      BeneathResolves(cwd, StagingRoot(cacheDir), StagingDir(cacheDir, fnName));
    }
  }

  /** Whatever the name, it is where the name leads from that root. */
  lemma StagingDirLeads(cwd: Path, cacheDir: Name, fnName: string)
    requires Clean(cwd) && IsClean(cacheDir)
    ensures var there := if cacheDir.rooted then cacheDir.segs else Walk(cwd, cacheDir.segs);
            Resolve(cwd, StagingDir(cacheDir, fnName)) == Walk(there + ["staging"], Segments(fnName))
  {
    BelowLeadsThere(cwd, cacheDir, "staging", fnName);
  }

  /** Which names lead out of there: exactly those that climb, and do not come back the way they went up. */
  lemma StagingDirStays(cacheDir: Name, fnName: string) returns (k: nat, rest: Path)
    requires IsClean(cacheDir)
    ensures Relative(fnName) == Ups(k) + rest && Clean(rest)
    ensures Beneath(StagingRoot(cacheDir), StagingDir(cacheDir, fnName)) <==> Returns(StagingRoot(cacheDir), k, rest)
  {
    k, rest := StaysBelow(cacheDir, "staging", fnName);
  }

  /** One that does, to a directory beside the cache's. */
  lemma ClimbingName()
    ensures var cacheDir := Name(true, ["p", ".lambdary"]);
            && StagingDir(cacheDir, "../../x") == Name(true, ["p", "x"])
            && !Beneath(StagingRoot(cacheDir), StagingDir(cacheDir, "../../x"))
  {
    assert "../../x" == ".." + ("/" + (".." + ("/" + "x")));
    SegmentsSlash("..", ".." + ("/" + "x"));
    SegmentsSlash("..", "x");
    SegmentsPlain("x");
    assert [".."] + ([".."] + ["x"]) == ["..", "..", "x"];
    TwoUp(["p", ".lambdary"] + ["staging"], "x");
  }

  lemma TwoUp(p: Path, s: string)
    requires |p| == 3 && Clean(p) && Clean([s])
    ensures Cleaned(p, ["..", "..", s], true) == [p[0], s]
  {
    assert [s][0] == s;
    assert ["..", "..", s][1..] == ["..", s] && ["..", s][1..] == [s] && [s][1..] == [];
    assert CleanedBy(p, "..", true) == p[..2] && CleanedBy(p[..2], "..", true) == p[..1];
    assert Cleaned(p[..1], [s], true) == CleanedBy(p[..1], s, true) == [p[0], s];
    assert Cleaned(p[..2], ["..", s], true) == [p[0], s];
  }

  /** Two functions' staging directories, of names that do not climb, are apart exactly if neither cleaned name begins
      the other. */
  lemma StagingDirsApart(cwd: Path, cacheDir: Name, a: string, b: string)
    requires IsClean(cacheDir) && Clean(Relative(a)) && Clean(Relative(b))
    ensures Apart(Resolve(cwd, StagingDir(cacheDir, a)), Resolve(cwd, StagingDir(cacheDir, b)))
            <==> Apart(Relative(a), Relative(b))
  {
    OneBeneathOther(cwd, cacheDir, "staging", a, b);
    OneBeneathOther(cwd, cacheDir, "staging", b, a);
  }

  predicate Apart(p: Path, q: Path) { !Above(p, q) && !Above(q, p) }

  lemma OneWay(a: Path, b: Path, c: Path)
    ensures Above(a, c) && Above(b, c) ==> Above(a, b) || Above(b, a)
  {
    if Above(a, c) && Above(b, c) { assert a == c[..|a|] && b == c[..|b|]; }
  }

  lemma AboveAbove(a: Path, b: Path, c: Path)
    ensures Above(a, b) && Above(b, c) ==> Above(a, c)
  {
  }

  /** And then staging the one leaves what is staged for the other alone. */
  lemma StagingOneKeepsOther(before: Tree, after: Tree, a: Path, b: Path)
    requires Grown(Outside(before, b), Outside(after, b), b) && Apart(a, b)
    ensures Sub(after, a) == Sub(before, a)
  {
    forall p ensures !Above(b, a + p) && !Above(a + p, b) {
      OneWay(a, b, a + p);
      AboveAbove(a, a + p, b);
    }
    forall p ensures a + p in before <==> a + p in after {
      if a + p in after { assert a + p in Outside(after, b); }
      if a + p in before { assert a + p in Outside(before, b); }
    }
    SameSub(before, after, a);
  }

  lemma SameSub(before: Tree, after: Tree, a: Path)
    requires forall p :: a + p in before <==> a + p in after
    requires forall p :: a + p in before && a + p in after ==> before[a + p] == after[a + p]
    ensures Sub(after, a) == Sub(before, a)
  {
  }

  ghost predicate SourceReadable(s: Source) { s.Directory? ==> Walkable(s.tree) }

  ghost predicate LayerReadable(l: Layer) {
    match l
    case Arn(s) => SourceReadable(s)
    case Local(s) => SourceReadable(s)
    case UnknownKind => true
  }

  /** What a path of a tree brings along, if it is staged at all. */
  function ChainOf(src: SrcTree, p: Path): Tree {
    if p in Plain(src) then Chain(p, Plain(src)[p]) else map[]
  }

  /** Where the walk stands: `part` of the tree is there, all of it but what rests. */
  ghost predicate Copied(was: Tree, part: Tree, src: SrcTree, rest: set<Path>) {
    && Compatible(was, part)
    && (forall p :: p in part ==> p in Plain(src) && part[p] == Plain(src)[p])
    && (forall p :: p in src && p !in rest ==> !src[p].Symlink? && (p in Plain(src) ==> p in part))
  }

  lemma CopiesOne(was: Tree, part: Tree, src: SrcTree, rest: set<Path>, p: Path)
    requires Walkable(src) && Copied(was, part, src, rest) && p in src
    ensures !src[p].Symlink? && Compatible(was + part, ChainOf(src, p)) ==>
              Copied(was, part + ChainOf(src, p), src, rest - {p})
    ensures !Compatible(was + part, ChainOf(src, p)) ==> !Compatible(was, Plain(src))
  {
    var c := ChainOf(src, p);
    assert forall q :: q in c ==> q in Plain(src) && c[q] == Plain(src)[q];
    if !Compatible(was + part, c) {
      var q :| q in was + part && q in c && (was + part)[q].Dir? != c[q].Dir?;
      assert q !in part;
      assert q in was;
    }
  }

  lemma OverOver(a: Tree, b: Tree, c: Tree)
    ensures a + b + c == a + (b + c)
  {
  }

  lemma CopiedAll(was: Tree, part: Tree, src: SrcTree)
    requires Copied(was, part, src, {})
    ensures NoLinks(src) && part == Plain(src) && Compatible(was, Plain(src))
  {
  }

  lemma TouchedBelow(was: Tree, now: Tree, dst: Path, p: Path)
    requires Closed(was) && dst in was && was[dst].Dir? && Closed(now) && Touched(was, now, dst + p)
    ensures dst in now && now[dst].Dir? && Outside(now, dst) == Outside(was, dst)
  {
    assert Above(dst, dst + p);
    forall q | q in now && !Above(dst, q) ensures q in was && now[q] == was[q] {
      if q !in was { ShorterIsAbove(q, dst, p); }
    }
  }

  /** Nothing changed, and only directories missing above a path, or at it, came into being. */
  ghost predicate Grown(before: Tree, after: Tree, path: Path) {
    && (forall q :: q in before ==> q in after && after[q] == before[q])
    && (forall q :: q in after && q !in before ==> Above(q, path) && after[q].Dir?)
  }

  /** Nothing changed but the node at a path, which is a directory still if it was one, and missing directories above
      it. */
  ghost predicate Touched(before: Tree, after: Tree, path: Path) {
    && (forall q :: q in before ==> q in after && (q == path || after[q] == before[q]))
    && (forall q :: q in after && q !in before ==> Above(q, path))
    && (path in before ==> (before[path].Dir? <==> after[path].Dir?))
  }

  lemma ChainGrows(path: Path, k: nat)
    requires 0 < k <= |path|
    ensures Chain(path[..k], Dir) == Chain(path[..k - 1], Dir)[path[..k] := Dir]
    ensures Above(path[..k], path) && forall q :: Above(q, path[..k]) ==> Above(q, path)
  {
    assert path[..k][..k - 1] == path[..k - 1];
    assert forall q :: Above(q, path[..k]) ==> q == path[..k] || Above(q, path[..k - 1]);
  }

  lemma ParentChain(path: Path, n: Node)
    requires path != []
    ensures Chain(path, n) == Chain(path[..|path| - 1], Dir)[path := n]
    ensures forall q :: Above(q, path) <==> q == path || Above(q, path[..|path| - 1])
    ensures Above(path[..|path| - 1], path)
  {
    assert forall q :: Above(q, path) ==> q == path || Above(q, path[..|path| - 1]);
  }

  /** A file put below a directory that is there. */
  lemma FileIn(was: Tree, made: Tree, now: Tree, path: Path)
    requires path != [] && Closed(made) && Grown(was, made, path[..|path| - 1])
    requires path[..|path| - 1] in made && made[path[..|path| - 1]].Dir?
    requires path in now && now[path].File? && now == made[path := now[path]] && (path in made ==> made[path].File?)
    ensures Closed(now) && Touched(was, now, path)
  {
    ParentChain(path, now[path]);
  }

  ghost predicate ZipFits(target: Name, was: Tree, entries: seq<Entry>, n: nat)
    requires n <= |entries|
  {
    && (forall i :: 0 <= i < n ==> EntryOk(target, entries[i]))
    && Consistent(target, entries, n) && Compatible(was, ZipTree(target, entries, n))
  }

  lemma ZipFitsOne(target: Name, was: Tree, entries: seq<Entry>, n: nat)
    requires n < |entries| && ZipFits(target, was, entries, n)
    ensures ZipFits(target, was, entries, n + 1)
            <==> (EntryOk(target, entries[n])
                  && Compatible(was + ZipTree(target, entries, n), EntryTree(target, entries[n])))
  {
    if EntryOk(target, entries[n]) {
      CompatibleOver(was, ZipTree(target, entries, n), EntryTree(target, entries[n]));
    }
  }

  lemma CompatibleOver(a: Tree, b: Tree, c: Tree)
    requires Compatible(a, b)
    ensures Compatible(a + b, c) <==> Compatible(b, c) && Compatible(a, b + c)
  {
    if Compatible(a + b, c) {
      forall p | p in b && p in c ensures b[p].Dir? <==> c[p].Dir? { assert p in a + b; }
      forall p | p in a && p in b + c ensures a[p].Dir? <==> (b + c)[p].Dir? { assert p in a + b; }
    }
    if Compatible(b, c) && Compatible(a, b + c) {
      forall p | p in a + b && p in c ensures (a + b)[p].Dir? <==> c[p].Dir? { assert p in b + c; }
    }
  }

  /** What fits as a whole fits as far as any entry. */
  lemma {:induction false} ZipFitsLess(target: Name, was: Tree, entries: seq<Entry>, n: nat, m: nat)
    requires n <= m <= |entries| && ZipFits(target, was, entries, m)
    ensures ZipFits(target, was, entries, n)
    decreases m
  {
    if n < m {
      var front, e := ZipTree(target, entries, m - 1), EntryTree(target, entries[m - 1]);
      forall p | p in was && p in front ensures was[p].Dir? <==> front[p].Dir? { assert p in front + e; }
      ZipFitsLess(target, was, entries, n, m - 1);
    }
  }

  lemma ZipFitsWhole(target: Name, was: Tree, entries: seq<Entry>)
    ensures Fits(target, was, Zip(entries)) <==> ZipFits(target, was, entries, |entries|)
  {
  }

  lemma WithoutLeaf(t: Tree, d: Path, p: Path)
    requires Closed(t) && p != [] && Above(d, p) && forall q :: q in t && Above(p, q) ==> q == p
    ensures Closed(t - {p}) && Outside(t - {p}, d) == Outside(t, d)
  {
  }

  /** A directory has something in it that has nothing beneath it, or is that itself. */
  lemma {:induction false} SomeLeaf(t: Tree, p: Path)
    requires p in t
    ensures exists q :: q in t && Above(p, q) && forall r :: r in t && Above(q, r) ==> r == q
    decreases set q | q in t && Above(p, q)
  {
    if q :| q in t && Above(p, q) && q != p {
      ghost var at, below := set r | r in t && Above(p, r), set r | r in t && Above(q, r);
      assert forall r :: r in below ==> r in at;
      assert p in at && p !in below;
      SomeLeaf(t, q);
    }
  }

  lemma RemovableBelow(t: Tree, d: Path, p: Path)
    ensures Removable(t, d + p) <==> Removable(Sub(t, d), p)
  {
    if Removable(t, d + p) {
      forall q | q in Sub(t, d) && Above(p, q) ensures q == p { AboveBelow(d, p, q); }
    }
    if Removable(Sub(t, d), p) {
      forall q | q in t && Above(d + p, q) ensures q == d + p {
        assert q == d + (p + q[|d + p|..]);
        assert p + q[|d + p|..] in Sub(t, d) && Above(p, p + q[|d + p|..]);
      }
    }
  }

  lemma WithoutBelow(t: Tree, d: Path, p: Path)
    requires Closed(t) && d in t && t[d].Dir? && p != [] && Removable(t, d + p)
    ensures var u := t - {d + p};
            Closed(u) && d in u && u[d].Dir? && Sub(u, d) == Sub(t, d) - {p} && Outside(u, d) == Outside(t, d)
  {
    assert Above(d, d + p) && d + p != d;
    WithoutLeaf(t, d + p, d + p);
    SubWithout(t, d, p);
  }

  lemma SubWithout(t: Tree, d: Path, p: Path)
    ensures Sub(t - {d + p}, d) == Sub(t, d) - {p}
  {
    forall q ensures d + q == d + p <==> q == p { AboveBelow(d, q, p); }
  }

  /** A cleared directory made again is empty. */
  lemma MadeEmpty(was: Tree, cleared: Tree, now: Tree, d: Path)
    requires Closed(now) && cleared == Outside(was, d) && Grown(cleared, now, d)
    ensures Grown(Outside(was, d), Outside(now, d), d)
    ensures now == cleared + Chain(d, Dir) ==> Sub(now, d) == map[[] := Dir] && d in now && now[d].Dir?
  {
    if now == cleared + Chain(d, Dir) {
      assert d + [] == d;
      forall p | d + p in now ensures p == [] {
        assert Above(d, d + p);
        assert Above(d + p, d);
      }
    }
  }

  lemma MergedOne(target: Name, layers: seq<Layer>, k: nat)
    requires k < |layers| && Merged(target, layers[..k]).Some?
    ensures var t := Merged(target, layers[..k]).value;
            Merged(target, layers[..k + 1]) == if LayerFits(target, t, layers[k]) then Some(Over(target, t,
                layers[k])) else None
  {
    assert layers[..k + 1][..k] == layers[..k];
  }

  lemma {:induction false} NoneStays(target: Name, layers: seq<Layer>, k: nat)
    requires k <= |layers| && Merged(target, layers[..k]) == None
    ensures Merged(target, layers) == None
    decreases |layers|
  {
    if k < |layers| {
      assert layers[..|layers| - 1][..k] == layers[..k];
      NoneStays(target, layers[..|layers| - 1], k);
    } else {
      assert layers[..k] == layers;
    }
  }

  // ---------------------------------------------------------------------------------------------
  // What the fold says, path by path
  // ---------------------------------------------------------------------------------------------

  /** The entry lands on the path, or beneath it. */
  predicate Passes(target: Name, e: Entry, p: Path) {
    CleanName(e.name) != Name(false, []) && Above(target.segs + p, Join(target, CleanName(e.name)).segs)
  }

  /** The last entry to do so. */
  predicate IsLastAt(target: Name, entries: seq<Entry>, n: nat, k: nat, p: Path)
    requires n <= |entries|
  {
    k < n && Passes(target, entries[k], p) && forall j :: k < j < n ==> !Passes(target, entries[j], p)
  }

  /** What an entry leaves at a path that it passes: a file with its content and its mode, which is 0644 if it has none,
      or a directory. */
  predicate Leaves(target: Name, e: Entry, p: Path, node: Node) {
    if target.segs + p == Join(target, CleanName(e.name)).segs && e.kind != IsDir
    then node == File(e.data, if e.perm == 0 then 0x1A4 else e.perm)
    else node == Dir
  }

  /** What a source has at a path. */
  ghost predicate Shows(target: Name, s: Source, p: Path, node: Node) {
    match s
    case Directory(tree) =>
      p in tree
      && ((tree[p].SrcDir? && node == Dir) || (tree[p].SrcFile? && node == File(tree[p].data, tree[p].perm)))
    case Zip(entries) =>
      exists k: nat :: IsLastAt(target, entries, |entries|, k, p) && Leaves(target, entries[k], p, node)
    case _ => false
  }

  ghost predicate Has(target: Name, l: Layer, p: Path) { exists node :: Shows(target, SourceOf(l), p, node) }

  function SourceOf(l: Layer): Source {
    match l
    case Arn(s) => s
    case Local(s) => s
    case UnknownKind => Absent
  }

  /** The last layer that has a path decides it, with what it has there, and nothing is there that no layer has; the
      cache marker is there only from a local layer with no ARN's after it. */
  lemma {:induction false} LastLayerWins(target: Name, layers: seq<Layer>, p: Path)
    requires Merged(target, layers).Some? && p != []
    ensures p in Merged(target, layers).value ==>
              exists i :: 0 <= i < |layers| && Decides(target, layers, i, p)
                          && Shows(target, SourceOf(layers[i]), p, Merged(target, layers).value[p])
    ensures forall i :: 0 <= i < |layers| && Decides(target, layers, i, p) ==> p in Merged(target, layers).value
  {
    if layers != [] {
      var n := |layers| - 1;
      var front, l := layers[..n], layers[n];
      LastLayerWins(target, front, p);
      DecidesBefore(target, layers, p);
      SourceShows(target, SourceOf(l), p);
      if p in Merged(target, layers).value {
        if Has(target, l, p) {
          assert Decides(target, layers, n, p);
        } else {
          var i :| 0 <= i < |front| && Decides(target, front, i, p)
                   && Shows(target, SourceOf(front[i]), p, Merged(target, front).value[p]);
          assert Decides(target, layers, i, p);
        }
      }
    }
  }

  lemma DecidesBefore(target: Name, layers: seq<Layer>, p: Path)
    requires layers != []
    ensures var n := |layers| - 1;
            forall i :: 0 <= i < n ==>
              (Decides(target, layers, i, p) <==> Decides(target, layers[..n], i, p) && !Hides(target, layers[n], p))
  {
    var n := |layers| - 1;
    forall i | 0 <= i < n
      ensures Decides(target, layers, i, p) <==> Decides(target, layers[..n], i, p) && !Hides(target, layers[n], p)
    {
      DecidesOneBefore(target, layers[..n], layers[n], i, p);
      assert layers[..n] + [layers[n]] == layers;
    }
  }

  lemma DecidesOneBefore(target: Name, front: seq<Layer>, last: Layer, i: nat, p: Path)
    requires i < |front|
    ensures Decides(target, front + [last], i, p) <==> Decides(target, front, i, p) && !Hides(target, last, p)
  {
    var layers := front + [last];
    assert layers[|front|] == last && forall j :: 0 <= j < |front| ==> layers[j] == front[j];
  }

  /** A layer has the path, or is an ARN's and the path the marker's. */
  ghost predicate Hides(target: Name, l: Layer, p: Path) { Has(target, l, p) || (l.Arn? && p == MARKER) }

  ghost predicate Decides(target: Name, layers: seq<Layer>, i: nat, p: Path)
    requires i < |layers|
  {
    && Has(target, layers[i], p) && !(layers[i].Arn? && p == MARKER)
    && forall j :: i < j < |layers| ==> !Hides(target, layers[j], p)
  }

  lemma SourceShows(target: Name, s: Source, p: Path)
    requires SourceOk(target, s)
    ensures p in SourceTree(target, s) ==> Shows(target, s, p, SourceTree(target, s)[p])
    ensures forall node :: Shows(target, s, p, node) ==> p in SourceTree(target, s)
  {
    if s.Zip? {
      forall k: nat | IsLastAt(target, s.entries, |s.entries|, k, p)
        ensures p in SourceTree(target, s) && Leaves(target, s.entries[k], p, SourceTree(target, s)[p])
      {
        LastEntryWins(target, s.entries, |s.entries|, k, p);
      }
      if p in SourceTree(target, s) { var k := SomeEntryPasses(target, s.entries, |s.entries|, p); }
    }
  }

  /** In a zip the last entry that passes a path decides it. */
  lemma LastEntryWins(target: Name, entries: seq<Entry>, n: nat, k: nat, p: Path)
    requires n <= |entries| && forall i :: 0 <= i < n ==> EntryOk(target, entries[i])
    requires IsLastAt(target, entries, n, k, p)
    ensures p in ZipTree(target, entries, n) && Leaves(target, entries[k], p, ZipTree(target, entries, n)[p])
  {
    var trees := EntryTrees(target, entries, n);
    forall j | k <= j < n ensures p in trees[j] <==> j == k { EntryHas(target, entries[j], p); }
    EntryHas(target, entries[k], p);
    ZipIsLayered(target, entries, n);
    LastTreeWins(trees, k, p);
  }

  lemma SomeEntryPasses(target: Name, entries: seq<Entry>, n: nat, p: Path) returns (k: nat)
    requires n <= |entries| && forall i :: 0 <= i < n ==> EntryOk(target, entries[i])
    requires p in ZipTree(target, entries, n)
    ensures IsLastAt(target, entries, n, k, p)
  {
    var trees := EntryTrees(target, entries, n);
    ZipIsLayered(target, entries, n);
    k := SomeTreeHas(trees, p);
    forall j | k <= j < n ensures Passes(target, entries[j], p) <==> j == k { EntryHas(target, entries[j], p); }
  }

  function EntryTrees(target: Name, entries: seq<Entry>, n: nat): (trees: seq<Tree>)
    requires n <= |entries| && forall i :: 0 <= i < n ==> EntryOk(target, entries[i])
    ensures |trees| == n && forall i :: 0 <= i < n ==> trees[i] == EntryTree(target, entries[i])
  {
    if n == 0 then [] else EntryTrees(target, entries, n - 1) + [EntryTree(target, entries[n - 1])]
  }

  /** Trees over each other, a later one over an earlier one. */
  function Layered(trees: seq<Tree>): Tree {
    if trees == [] then map[] else Layered(trees[..|trees| - 1]) + trees[|trees| - 1]
  }

  lemma {:induction false} ZipIsLayered(target: Name, entries: seq<Entry>, n: nat)
    requires n <= |entries| && forall i :: 0 <= i < n ==> EntryOk(target, entries[i])
    ensures ZipTree(target, entries, n) == Layered(EntryTrees(target, entries, n))
  {
    if n > 0 {
      ZipIsLayered(target, entries, n - 1);
      OneEntryOnTop(target, entries, n);
    }
  }

  lemma OneEntryOnTop(target: Name, entries: seq<Entry>, n: nat)
    requires 0 < n <= |entries| && forall i :: 0 <= i < n ==> EntryOk(target, entries[i])
    requires ZipTree(target, entries, n - 1) == Layered(EntryTrees(target, entries, n - 1))
    ensures ZipTree(target, entries, n) == Layered(EntryTrees(target, entries, n))
  {
    var front, last := EntryTrees(target, entries, n - 1), EntryTree(target, entries[n - 1]);
    assert (front + [last])[..n - 1] == front;
  }

  lemma {:induction false} LastTreeWins(trees: seq<Tree>, k: nat, p: Path)
    requires k < |trees| && p in trees[k] && forall j :: k < j < |trees| ==> p !in trees[j]
    ensures p in Layered(trees) && Layered(trees)[p] == trees[k][p]
  {
    if k < |trees| - 1 { LastTreeWins(trees[..|trees| - 1], k, p); }
  }

  lemma {:induction false} SomeTreeHas(trees: seq<Tree>, p: Path) returns (k: nat)
    requires p in Layered(trees)
    ensures k < |trees| && p in trees[k] && forall j :: k < j < |trees| ==> p !in trees[j]
  {
    k := |trees| - 1;
    if p !in trees[k] { k := SomeTreeHas(trees[..|trees| - 1], p); }
  }

  lemma EntryHas(target: Name, e: Entry, p: Path)
    requires EntryOk(target, e)
    ensures p in EntryTree(target, e) <==> Passes(target, e, p)
    ensures p in EntryTree(target, e) ==> Leaves(target, e, p, EntryTree(target, e)[p])
  {
    if !IsDot(e.name) {
      var t, dest := target.segs, Landing(target, e.name).segs;
      assert dest == t + dest[|t|..];
      AboveBelow(t, p, dest[|t|..]);
    }
  }

  /** The entry is where it lands, as what it is, with directories above it, and all else is as it was. */
  ghost predicate Extracted(target: Name, e: Entry, before: Tree, after: Tree) {
    forall p: Path ::
      if Passes(target, e, p) then p in after && Leaves(target, e, p, after[p])
      else if p in before then p in after && after[p] == before[p] else p !in after
  }

  lemma EntryExtracted(target: Name, e: Entry, before: Tree)
    requires EntryOk(target, e)
    ensures Extracted(target, e, before, before + EntryTree(target, e))
  {
    forall p: Path
      ensures var after := before + EntryTree(target, e);
              if Passes(target, e, p) then p in after && Leaves(target, e, p, after[p])
              else if p in before then p in after && after[p] == before[p] else p !in after
    {
      EntryHas(target, e, p);
    }
  }

  /** What can be staged at all: directories without links, and of a local layer also zips whose entries are no links and
      land in the staging directory. */
  ghost predicate Stageable(target: Name, l: Layer) {
    match l
    case Arn(Directory(tree)) => forall p :: p in tree ==> !tree[p].Symlink?
    case Local(Directory(tree)) => forall p :: p in tree ==> !tree[p].Symlink?
    case Local(Zip(entries)) =>
      forall i :: 0 <= i < |entries| ==>
        entries[i].kind != IsLink
        && (CleanName(entries[i].name).segs == [] || Beneath(target, Join(target, CleanName(entries[i].name))))
    case _ => false
  }

  /** Nothing else is. */
  lemma {:induction false} OnlyStageable(target: Name, layers: seq<Layer>)
    requires Merged(target, layers).Some?
    ensures forall i :: 0 <= i < |layers| ==> Stageable(target, layers[i])
  {
    if layers != [] {
      var front, l := layers[..|layers| - 1], layers[|layers| - 1];
      OnlyStageable(target, front);
      assert Stageable(target, l);
      assert forall i :: 0 <= i < |front| ==> Stageable(target, front[i]);
    }
  }
}
