/**
 * The two helpers of src/files.py: the map from tracer name to script path,
 * and the forced (re)creation of the output directory over an abstract file
 * system.
 */
module Files {
  import opened Results
  import opened PathNames

  /** `path` is `file` inside `dirPath`: it starts with the directory and ends
      with the file name, and is the two joined by one `/` when the directory
      is a plain name. */
  predicate ScriptIn(dirPath: string, path: string, file: string)
  {
    && |path| >= |dirPath| + |file|
    && path[..|dirPath|] == dirPath && path[|path| - |file|..] == file
    && (dirPath != [] && dirPath[|dirPath| - 1] != Sep ==> path == dirPath + [Sep] + file)
  }

  /** The ordered entries of the script map: exactly two tracers, named "io"
      and "memory" in that order, each with its script file inside `dirPath`. */
  function TracingScripts(dirPath: string): (m: seq<(string, string)>)
    ensures |m| == 2 && m[0].0 == "io" && m[1].0 == "memory"
    ensures ScriptIn(dirPath, m[0].1, "io_trace.bt")
    ensures ScriptIn(dirPath, m[1].1, "memory_trace.bt")
  {
    ScriptPathShape(dirPath, "io_trace.bt");
    ScriptPathShape(dirPath, "memory_trace.bt");
    [("io", Join(dirPath, "io_trace.bt")), ("memory", Join(dirPath, "memory_trace.bt"))]
  }

  lemma ScriptPathShape(dirPath: string, file: string)
    requires file != [] && file[0] != Sep
    ensures ScriptIn(dirPath, Join(dirPath, file), file)
  {
    assert !IsAbsolute(file);
  }

  /** Kind of an existing path. */
  datatype Kind = Directory | RegularFile

  /** A path as its components below the root; [] is the empty path string. */
  type Path = seq<string>

  /** The entries of a file system: every existing path and its kind. */
  type Tree = map<Path, Kind>

  /** Every ancestor of an entry is an existing directory. */
  ghost predicate WellFormed(t: Tree) {
    forall p, i :: p in t && 0 < i < |p| ==> p[..i] in t && t[p[..i]] == Directory
  }

  /** `p` is `d` or lies below it. */
  predicate Within(d: Path, p: Path) {
    |d| <= |p| && p[..|d|] == d
  }

  /** `shutil.rmtree(d)`: drop `d` and everything below it. */
  function Prune(t: Tree, d: Path): (r: Tree)
    ensures forall p :: p in r <==> p in t && !Within(d, p)
    ensures forall p :: p in r ==> r[p] == t[p]
  {
    map p | p in t && !Within(d, p) :: t[p]
  }

  /** The non-empty prefixes of `d`: what `os.makedirs(d)` needs to exist. */
  function Ancestry(d: Path): (r: set<Path>)
    ensures forall i :: 0 < i <= |d| ==> d[..i] in r
    ensures forall p :: p in r ==> 0 < |p| <= |d| && p == d[..|p|]
  {
    set i | 0 < i <= |d| :: d[..i]
  }

  /** Some prefix of `d` (or `d` itself) exists as a regular file, so
      `os.makedirs(d, exist_ok=True)` raises. */
  predicate Blocked(t: Tree, d: Path) {
    exists i :: 0 < i <= |d| && d[..i] in t && t[d[..i]] == RegularFile
  }

  /** `os.makedirs(d, exist_ok=True)` when it succeeds: every missing prefix
      of `d` becomes a directory. */
  function AddDirs(t: Tree, d: Path): (r: Tree)
    ensures r.Keys == t.Keys + Ancestry(d)
    ensures forall i :: 0 < i <= |d| ==> r[d[..i]] == Directory
    ensures forall p :: p in t && p !in Ancestry(d) ==> r[p] == t[p]
  {
    t + AllDirs(Ancestry(d))
  }

  /** Each path of `a` as a directory. */
  function AllDirs(a: set<Path>): Tree
  {
    map q | q in a :: Directory
  }

  /** `create_dir(d)`: remove `d` if it is a directory, then create it and its
      missing ancestors; None where Python raises (the empty path, or a prefix
      that is a regular file). */
  function CreateDirSpec(t: Tree, d: Path): (r: Option<Tree>)
    ensures r.None? <==> d == [] || Blocked(t, d)
    ensures r.Some? ==> d in r.value && r.value[d] == Directory
  {
    PruneKeepsBlocked(t, d);
    assert d == [] || d == d[..|d|];
    var t1 := if d in t && t[d] == Directory then Prune(t, d) else t;
    if d == [] || Blocked(t1, d) then None else Some(AddDirs(t1, d))
  }

  /** Removing the directory `d` itself removes no prefix of `d` that is a
      regular file. */
  lemma PruneKeepsBlocked(t: Tree, d: Path)
    ensures d in t && t[d] == Directory ==> (Blocked(Prune(t, d), d) <==> Blocked(t, d))
  {
    if d in t && t[d] == Directory {
      var u := Prune(t, d);
      if Blocked(t, d) {
        assert d[..|d|] == d;
        var i :| 0 < i <= |d| && d[..i] in t && t[d[..i]] == RegularFile;
        assert !Within(d, d[..i]);
        assert d[..i] in u;
      }
      if Blocked(u, d) {
        var i :| 0 < i <= |d| && d[..i] in u && u[d[..i]] == RegularFile;
        assert d[..i] in t;
      }
    }
  }

  /** A prefix of a path inside `d` that is at least as long as `d` is inside `d`. */
  lemma WithinPrefix(d: Path, p: Path, i: nat)
    requires i <= |p|
    ensures Within(d, p[..i]) ==> Within(d, p)
  {
    if |d| <= i {
      assert p[..i][..|d|] == p[..|d|];
    }
  }

  /** In a well-formed tree every proper prefix of an existing directory is a
      directory, so creating an existing directory is never blocked. */
  lemma ExistingDirNotBlocked(t: Tree, d: Path)
    requires WellFormed(t) && d in t && t[d] == Directory
    ensures !Blocked(t, d)
  {
    forall i | 0 < i <= |d|
      ensures d[..i] in t && t[d[..i]] == Directory
    {
      if i == |d| {
        assert d[..i] == d;
      }
    }
  }

  /** create_dir fails exactly on the empty path or when a prefix of the path is
      a regular file; otherwise the directory exists, is empty, and the tree
      stays well formed. */
  lemma CreateDirResult(t: Tree, d: Path)
    requires WellFormed(t)
    ensures CreateDirSpec(t, d).None? <==> d == [] || Blocked(t, d)
    ensures CreateDirSpec(t, d).Some? ==>
      var r := CreateDirSpec(t, d).value;
      && WellFormed(r)
      && d in r && r[d] == Directory
      && (forall p :: p in r && Within(d, p) ==> p == d)
  {
    var pruned := d in t && t[d] == Directory;
    var t1 := if pruned then Prune(t, d) else t;
    assert d == d[..|d|];
    if pruned {
      ExistingDirNotBlocked(t, d);
      assert !Blocked(t1, d);
    }
    if d != [] && !Blocked(t, d) {
      if !pruned {
        assert d !in t;
        forall p | p in t
          ensures !Within(d, p)
        {
          if |p| > |d| {
            assert p[..|d|] in t;
          } else {
            assert p[..|p|] == p;
          }
        }
      }
      assert forall p :: p in t1 ==> !Within(d, p);
      var r := AddDirs(t1, d);
      forall p, i | p in r && 0 < i < |p|
        ensures p[..i] in r && r[p[..i]] == Directory
      {
        if p in Ancestry(d) {
          assert p[..i] == d[..i];
        } else {
          assert p in t1 && p in t;
          assert p[..i] in t && t[p[..i]] == Directory;
          WithinPrefix(d, p, i);
        }
      }
      forall p | p in r && Within(d, p)
        ensures p == d
      {
        assert p in Ancestry(d) || p in t1;
      }
    }
  }

  /** Paths neither inside `d` nor on the way to it keep their entries. */
  lemma CreateDirLeavesOthers(t: Tree, d: Path, p: Path)
    requires CreateDirSpec(t, d).Some?
    requires !Within(d, p) && !Within(p, d)
    ensures p in CreateDirSpec(t, d).value <==> p in t
    ensures p in t ==> CreateDirSpec(t, d).value[p] == t[p]
  {
  }

  /** On a path that does not exist yet create_dir only adds it and its
      missing ancestors. */
  lemma CreateDirOnMissingPath(t: Tree, d: Path)
    requires WellFormed(t) && d != [] && !Blocked(t, d)
    requires forall p :: p in t ==> !Within(d, p)
    ensures CreateDirSpec(t, d) == Some(AddDirs(t, d))
  {
    assert d !in t by {
      assert Within(d, d);
    }
  }

  /** Forcing the directory a second time changes nothing. */
  lemma CreateDirIdempotent(t: Tree, d: Path)
    requires WellFormed(t) && CreateDirSpec(t, d).Some?
    ensures CreateDirSpec(CreateDirSpec(t, d).value, d) == CreateDirSpec(t, d)
  {
    CreateDirResult(t, d);
    var t1 := if d in t && t[d] == Directory then Prune(t, d) else t;
    assert CreateDirSpec(t, d).value == AddDirs(t1, d);
    RecreateSame(CreateDirSpec(t, d).value, d);
  }

  /** An empty directory whose ancestors all exist as directories is
      re-created as it was. */
  lemma RecreateSame(r: Tree, d: Path)
    requires d != []
    requires forall i :: 0 < i <= |d| ==> d[..i] in r && r[d[..i]] == Directory
    requires forall p :: p in r && Within(d, p) ==> p == d
    ensures CreateDirSpec(r, d) == Some(r)
  {
    assert d == d[..|d|];
    var pruned := Prune(r, d);
    assert pruned == r - {d};
    assert !Blocked(pruned, d) by {
      forall i | 0 < i <= |d| && d[..i] in pruned
        ensures pruned[d[..i]] == Directory
      {
      }
    }
    assert AddDirs(pruned, d) == r;
  }

  lemma AncestryStep(d: Path, i: nat)
    requires 0 < i <= |d|
    ensures Ancestry(d[..i]) == Ancestry(d[..i - 1]) + {d[..i]}
    ensures d[..i] !in Ancestry(d[..i - 1])
  {
    var a := Ancestry(d[..i - 1]);
    forall q | q in Ancestry(d[..i])
      ensures q in a + {d[..i]}
    {
      assert q == d[..i][..|q|];
      if |q| < i {
        assert q == d[..i - 1][..|q|];
        assert q in a;
      } else {
        assert q == d[..i];
      }
    }
    forall q | q in a + {d[..i]}
      ensures q in Ancestry(d[..i])
    {
      if q in a {
        assert q == d[..i - 1][..|q|] == d[..i][..|q|];
      } else {
        assert q == d[..i][..i];
      }
    }
  }

  /** One more step of `makedirs`: the prefix of length `i` is added unless it
      already exists. */
  lemma AddDirsStep(t: Tree, d: Path, i: nat)
    requires 0 < i <= |d|
    ensures var u := AddDirs(t, d[..i - 1]);
      && (d[..i] in u <==> d[..i] in t)
      && (d[..i] in t ==> u[d[..i]] == t[d[..i]])
      && (d[..i] in t && t[d[..i]] == Directory ==> AddDirs(t, d[..i]) == u)
      && (d[..i] !in t ==> AddDirs(t, d[..i]) == u[d[..i] := Directory])
  {
    AncestryStep(d, i);
    if d[..i] in t && t[d[..i]] == Directory {
      AddExistingDir(t, Ancestry(d[..i - 1]), d[..i]);
    } else if d[..i] !in t {
      AddMissingDir(t, Ancestry(d[..i - 1]), d[..i]);
    }
  }

  lemma AddExistingDir(t: Tree, a: set<Path>, p: Path)
    requires p in t && t[p] == Directory
    ensures t + AllDirs(a + {p}) == t + AllDirs(a)
  {
    var w := t + AllDirs(a + {p});
    var u := t + AllDirs(a);
    assert w.Keys == u.Keys;
    forall q | q in w
      ensures w[q] == u[q]
    {
    }
  }

  lemma AddMissingDir(t: Tree, a: set<Path>, p: Path)
    requires p !in t && p !in a
    ensures t + AllDirs(a + {p}) == (t + AllDirs(a))[p := Directory]
  {
    var w := t + AllDirs(a + {p});
    var u := (t + AllDirs(a))[p := Directory];
    assert w.Keys == u.Keys;
    forall q | q in w
      ensures w[q] == u[q]
    {
    }
  }

  /** The prefixes of `d[..i]` are those of `d[..i - 1]` and `d[..i]` itself. */
  lemma BlockedStep(t: Tree, d: Path, i: nat)
    requires 0 < i <= |d|
    ensures Blocked(t, d[..i]) <==> Blocked(t, d[..i - 1]) || (d[..i] in t && t[d[..i]] == RegularFile)
  {
    var a, b := d[..i], d[..i - 1];
    if Blocked(t, a) {
      var j :| 0 < j <= i && a[..j] in t && t[a[..j]] == RegularFile;
      if j < i {
        assert a[..j] == b[..j];
      } else {
        assert a[..j] == a;
      }
    }
    if Blocked(t, b) {
      var j :| 0 < j <= i - 1 && b[..j] in t && t[b[..j]] == RegularFile;
      assert a[..j] == b[..j];
    }
    assert a[..i] == a;
  }

  /** When `makedirs` meets a regular file in a well-formed tree, everything
      above that file already was a directory, so nothing was created. */
  lemma AddDirsBelowFile(t: Tree, d: Path, i: nat)
    requires WellFormed(t) && 0 < i <= |d| && d[..i] in t
    ensures AddDirs(t, d[..i - 1]) == t
  {
    forall q | q in Ancestry(d[..i - 1])
      ensures q in t && t[q] == Directory
    {
      assert q == d[..i][..|q|];
    }
  }

  /** The file system the tool runs against, changed in place. */
  class FileSystem {
    var tree: Tree

    constructor (t: Tree)
      ensures tree == t
    {
      tree := t;
    }

    /** `shutil.rmtree(d)`. */
    method RemoveTree(d: Path)
      modifies this
      ensures tree == Prune(old(tree), d)
    {
      tree := Prune(tree, d);
    }

    /** `os.makedirs(d, exist_ok=True)`: create each missing prefix of `d`
        from the top down; stop with `ok == false` at a regular file. */
    method MakeDirs(d: Path) returns (ok: bool)
      requires WellFormed(tree) && d != []
      modifies this
      ensures ok == !Blocked(old(tree), d)
      ensures tree == if ok then AddDirs(old(tree), d) else old(tree)
    {
      var i := 1;
      while i <= |d|
        invariant 1 <= i <= |d| + 1
        invariant tree == AddDirs(old(tree), d[..i - 1])
        invariant !Blocked(old(tree), d[..i - 1])
      {
        var p := d[..i];
        AddDirsStep(old(tree), d, i);
        BlockedStep(old(tree), d, i);
        if p in tree && tree[p] == RegularFile {
          AddDirsBelowFile(old(tree), d, i);
          assert Blocked(old(tree), d) by {
            assert p in old(tree) && old(tree)[p] == RegularFile;
          }
          return false;
        }
        if p !in tree {
          tree := tree[p := Directory];
        }
        i := i + 1;
      }
      assert d[..|d|] == d;
      ok := true;
    }

    /** `create_dir(d)`: remove `d` if it is a directory, then `makedirs`. */
    method CreateDir(d: Path) returns (ok: bool)
      requires WellFormed(tree)
      modifies this
      ensures ok == CreateDirSpec(old(tree), d).Some?
      ensures tree == if ok then CreateDirSpec(old(tree), d).value else old(tree)
    {
      if d == [] {
        return false;
      }
      var wasDir := d in tree && tree[d] == Directory;
      if wasDir {
        RemoveTree(d);
        assert WellFormed(tree) by {
          forall p, i | p in tree && 0 < i < |p|
            ensures p[..i] in tree && tree[p[..i]] == Directory
          {
            assert p in old(tree);
            WithinPrefix(d, p, i);
          }
        }
      }
      ok := MakeDirs(d);
    }
  }
}
