/** The part of Node's synchronous `fs` API the CLI uses, over an abstract
    file system.

    The file system is a class: a map from path to file contents, a set of
    directories, and `entries`, every file and directory in the order the
    file system lists them. `readdirSync(d)` returns the leaves of the
    entries whose parent is `d`, in that order; an entry created later is
    listed after the existing ones, and removing one keeps the order of the
    rest. The working directory (the empty path) is always a directory.
    An operation that Node would make throw returns `Fail` with the errno
    code and changes nothing. */
module FileSystem {
  import opened Results
  import opened Paths

  predicate IsDirIn(dirs: set<Path>, p: Path)
  {
    p == [] || p in dirs
  }

  /** No prefix of `p` is a file. */
  predicate NoFileOn(files: map<Path, string>, p: Path)
  {
    forall k :: 1 <= k <= |p| ==> p[..k] !in files
  }

  /** What `writeFileSync(p, ...)` needs: `p` is not a directory and its
      parent is one. */
  predicate CanWriteIn(dirs: set<Path>, p: Path)
  {
    p != [] && p !in dirs && IsDirIn(dirs, Parent(p))
  }

  /** The listing once `p` is written: a new file is listed last. */
  function Written(entries: seq<Path>, files: map<Path, string>, p: Path): seq<Path>
  {
    if p in files then entries else entries + [p]
  }

  /** `files'` holds what `files` holds except at `a` and `b`. */
  ghost predicate SameBut(files: map<Path, string>, files': map<Path, string>, a: Path, b: Path)
  {
    forall k :: k != a && k != b ==> (k in files' <==> k in files) && (k in files ==> files'[k] == files[k])
  }

  /** A path other than the two changed ones is present after exactly when
      before. */
  lemma SameButOther(files: map<Path, string>, files': map<Path, string>, a: Path, b: Path, k: Path)
    requires SameBut(files, files', a, b) && k != a && k != b
    ensures k in files' <==> k in files
  {
  }

  /** Two updates change nothing but the two paths updated. */
  lemma SameButUpdates(files: map<Path, string>, a: Path, u: string, b: Path, v: string)
    ensures SameBut(files, files[a := u][b := v], a, b)
  {
  }

  /** Files and directories form a tree: every proper prefix of an entry
      is a directory. */
  ghost predicate Tree(files: map<Path, string>, dirs: set<Path>)
  {
    files.Keys !! dirs && [] !in files && [] !in dirs
    && (forall p, k :: p in files && 0 < k < |p| ==> p[..k] in dirs)
    && (forall p, k :: p in dirs && 0 < k < |p| ==> p[..k] in dirs)
  }

  predicate Distinct<T(==)>(s: seq<T>)
  {
    forall i, j :: 0 <= i < j < |s| ==> s[i] != s[j]
  }

  /** The names `readdirSync(d)` returns when the file system lists `entries`. */
  function Children(entries: seq<Path>, d: Path): (names: seq<string>)
  {
    if entries == [] then []
    else
      var p := entries[|entries| - 1];
      Children(entries[..|entries| - 1], d) + (if p != [] && Parent(p) == d then [Leaf(p)] else [])
  }

  /** `entries` without `p`, the rest in the same order. */
  function Without(entries: seq<Path>, p: Path): (r: seq<Path>)
    ensures forall q :: q in r <==> q in entries && q != p
  {
    if entries == [] then []
    else
      var front := Without(entries[..|entries| - 1], p);
      var last := entries[|entries| - 1];
      assert forall q :: q in entries <==> q in entries[..|entries| - 1] || q == last;
      if last == p then front else front + [last]
  }

  lemma {:induction false} WithoutDistinct(entries: seq<Path>, p: Path)
    requires Distinct(entries)
    ensures Distinct(Without(entries, p))
  {
    if entries != [] {
      var front := entries[..|entries| - 1];
      var last := entries[|entries| - 1];
      WithoutDistinct(front, p);
      if last != p {
        var w := Without(front, p);
        assert last !in front;
        assert last !in w;
        var r := w + [last];
        forall i, j | 0 <= i < j < |r| ensures r[i] != r[j] {
          if j == |r| - 1 { assert r[i] in w; }
        }
      }
    }
  }

  /** The prefixes of `p` that are not directories in `dirs`, shortest
      first: what `mkdirSync(p, { recursive: true })` creates. */
  function Missing(p: Path, dirs: set<Path>): (ms: seq<Path>)
    ensures forall q :: q in ms ==> q != [] && |q| <= |p| && q == p[..|q|] && q !in dirs
    ensures forall k :: 0 < k <= |p| && p[..k] !in dirs ==> p[..k] in ms
    ensures forall i, j :: 0 <= i < j < |ms| ==> |ms[i]| < |ms[j]|
    ensures Distinct(ms)
  {
    if p == [] then []
    else
      var front := Missing(Parent(p), dirs);
      assert forall q :: q in front ==> q == p[..|q|] by {
        forall q | q in front ensures q == p[..|q|] {
          assert q == Parent(p)[..|q|];
        }
      }
      assert forall k :: 0 < k < |p| ==> p[..k] == Parent(p)[..k];
      assert p[..|p|] == p;
      if p in dirs then front else front + [p]
  }

  /** The directories once `mkdirSync(p, { recursive: true })` has created
      the missing ones. */
  function MadeDirs(dirs: set<Path>, p: Path): set<Path>
  {
    dirs + (set q | q in Missing(p, dirs))
  }

  /** Making `d` makes it a directory. */
  lemma MadeHasDir(dirs: set<Path>, d: Path)
    ensures IsDirIn(MadeDirs(dirs, d), d)
  {
    assert d[..|d|] == d;
  }

  /** Making `d` creates no path longer than `d`. */
  lemma MadeAbove(dirs: set<Path>, d: Path, q: Path)
    requires |q| > |d|
    ensures q in MadeDirs(dirs, d) <==> q in dirs
  {
  }

  /** `mkdirSync` on a directory creates nothing. */
  lemma {:induction false} NothingMissing(files: map<Path, string>, dirs: set<Path>, p: Path)
    requires Tree(files, dirs) && IsDirIn(dirs, p)
    ensures Missing(p, dirs) == []
    decreases |p|
  {
    if p != [] {
      if Parent(p) != [] {
        forall k | 0 < k < |Parent(p)| ensures Parent(p)[..k] in dirs {
          assert Parent(p)[..k] == p[..k];
        }
      }
      NothingMissing(files, dirs, Parent(p));
    }
  }

  lemma {:induction false} ChildrenMembership(entries: seq<Path>, d: Path, x: string)
    ensures x in Children(entries, d) <==> d + [x] in entries
  {
    if entries != [] {
      var front := entries[..|entries| - 1];
      var p := entries[|entries| - 1];
      ChildrenMembership(front, d, x);
      assert entries == front + [p];
      if p != [] {
        assert p == Parent(p) + [Leaf(p)];
      }
    }
  }

  lemma {:induction false} ChildrenAppend(a: seq<Path>, b: seq<Path>, d: Path)
    ensures Children(a + b, d) == Children(a, d) + Children(b, d)
    decreases |b|
  {
    if b == [] {
      assert a + b == a;
    } else {
      var b' := b[..|b| - 1];
      ChildrenAppend(a, b', d);
      assert (a + b)[..|a + b| - 1] == a + b';
      assert (a + b)[|a + b| - 1] == b[|b| - 1];
    }
  }

  /** `names` without `x`, the rest in the same order. */
  function Drop(names: seq<string>, x: string): (r: seq<string>)
    ensures forall y :: y in r <==> y in names && y != x
  {
    if names == [] then []
    else
      var front := Drop(names[..|names| - 1], x);
      var last := names[|names| - 1];
      assert forall y :: y in names <==> y in names[..|names| - 1] || y == last;
      if last == x then front else front + [last]
  }

  lemma DropAppend(names: seq<string>, y: string, x: string)
    ensures Drop(names + [y], x) == Drop(names, x) + (if y == x then [] else [y])
  {
    assert (names + [y])[..|names|] == names;
  }

  /** Two different entries of one directory have different names. */
  lemma SiblingLeaves(a: Path, b: Path)
    requires a != [] && b != [] && Parent(a) == Parent(b) && a != b
    ensures Leaf(a) != Leaf(b)
  {
    assert a == Parent(a) + [Leaf(a)] && b == Parent(b) + [Leaf(b)];
  }

  /** Removing an entry removes its name from its parent's listing only. */
  lemma {:induction false} ChildrenWithout(entries: seq<Path>, p: Path, d: Path)
    requires p != []
    ensures Children(Without(entries, p), d)
            == if Parent(p) == d then Drop(Children(entries, d), Leaf(p)) else Children(entries, d)
  {
    if entries != [] {
      var front := entries[..|entries| - 1];
      var last := entries[|entries| - 1];
      ChildrenWithout(front, p, d);
      var w := Without(front, p);
      var cf := Children(front, d);
      var child := last != [] && Parent(last) == d;
      assert Children(entries, d) == cf + (if child then [Leaf(last)] else []);
      if last == p {
        assert Without(entries, p) == w;
        if Parent(p) == d {
          DropAppend(cf, Leaf(p), Leaf(p));
        }
      } else {
        assert Without(entries, p) == w + [last];
        assert (w + [last])[..|w|] == w;
        assert Children(w + [last], d) == Children(w, d) + (if child then [Leaf(last)] else []);
        if Parent(p) == d && child {
          SiblingLeaves(last, p);
          DropAppend(cf, Leaf(last), Leaf(p));
        } else if Parent(p) == d {
          assert cf + [] == cf;
          assert Children(w, d) + [] == Children(w, d);
        }
      }
    }
  }

  /** The file system's invariant: a tree, listed once per entry. */
  ghost predicate Consistent(files: map<Path, string>, dirs: set<Path>, entries: seq<Path>)
  {
    Tree(files, dirs) && Distinct(entries)
    && (forall p :: p in entries <==> p in files || p in dirs)
  }

  /** The prefixes of a path whose parent is a directory are directories. */
  lemma PrefixesAreDirs(files: map<Path, string>, dirs: set<Path>, q: Path)
    requires Tree(files, dirs)
    requires q != [] && IsDirIn(dirs, Parent(q))
    ensures forall k :: 0 < k < |q| ==> q[..k] in dirs
  {
    forall k | 0 < k < |q| ensures q[..k] in dirs {
      if k < |q| - 1 {
        assert q[..k] == Parent(q)[..k];
      }
    }
  }

  lemma AppendDistinct(entries: seq<Path>, q: Path)
    requires Distinct(entries) && q !in entries
    ensures Distinct(entries + [q])
  {
    var es := entries + [q];
    forall i, j | 0 <= i < j < |es| ensures es[i] != es[j] {
      if j == |es| - 1 { assert es[i] in entries; }
    }
  }

  /** Creating a directory whose parent is one keeps the invariant. */
  lemma AddDir(files: map<Path, string>, dirs: set<Path>, entries: seq<Path>, q: Path)
    requires Consistent(files, dirs, entries)
    requires q != [] && q !in files && q !in dirs && IsDirIn(dirs, Parent(q))
    ensures Consistent(files, dirs + {q}, entries + [q])
  {
    PrefixesAreDirs(files, dirs, q);
    AppendDistinct(entries, q);
  }

  /** Writing a file into a directory keeps the invariant. */
  lemma AddFile(files: map<Path, string>, dirs: set<Path>, entries: seq<Path>, q: Path, content: string)
    requires Consistent(files, dirs, entries)
    requires q != [] && q !in dirs && IsDirIn(dirs, Parent(q))
    ensures Consistent(files[q := content], dirs, if q in files then entries else entries + [q])
  {
    PrefixesAreDirs(files, dirs, q);
    if q !in files {
      AppendDistinct(entries, q);
    }
  }

  /** Removing a file keeps the invariant. */
  lemma RemoveFile(files: map<Path, string>, dirs: set<Path>, entries: seq<Path>, q: Path)
    requires Consistent(files, dirs, entries) && q in files
    ensures Consistent(files - {q}, dirs, Without(entries, q))
  {
    WithoutDistinct(entries, q);
  }

  /** No prefix of a directory is a file. */
  lemma DirOnPath(files: map<Path, string>, dirs: set<Path>, p: Path)
    requires Tree(files, dirs) && IsDirIn(dirs, p)
    ensures forall k :: 1 <= k <= |p| ==> p[..k] !in files
  {
    forall k | 1 <= k <= |p| ensures p[..k] !in files {
      if k == |p| { assert p[..k] == p; }
    }
  }

  /** Creating one more missing directory keeps the invariant. */
  lemma AddMissingDir(files: map<Path, string>, dirs: set<Path>, entries: seq<Path>, ms: seq<Path>, p: Path)
    requires Consistent(files, dirs + (set q | q in ms), entries + ms)
    requires p != [] && p !in files && p !in dirs && p !in ms
    requires IsDirIn(dirs + (set q | q in ms), Parent(p))
    ensures Consistent(files, dirs + (set q | q in ms + [p]), entries + (ms + [p]))
  {
    AddDir(files, dirs + (set q | q in ms), entries + ms, p);
    assert (set q | q in ms + [p]) == (set q | q in ms) + {p};
    assert entries + ms + [p] == entries + (ms + [p]);
  }

  /** Creating the missing directories on the way to `p`, when no prefix
      of `p` is a file, keeps the invariant and makes `p` a directory. */
  lemma {:induction false} AddMissing(files: map<Path, string>, dirs: set<Path>, entries: seq<Path>, p: Path)
    requires Consistent(files, dirs, entries)
    requires forall k :: 1 <= k <= |p| ==> p[..k] !in files
    ensures var ms := Missing(p, dirs);
            Consistent(files, dirs + (set q | q in ms), entries + ms)
            && IsDirIn(dirs + (set q | q in ms), p)
    decreases |p|
  {
    if p != [] {
      var up := Parent(p);
      forall k | 1 <= k <= |up| ensures up[..k] !in files {
        assert up[..k] == p[..k];
      }
      AddMissing(files, dirs, entries, up);
      if p !in dirs {
        assert p == p[..|p|];
        AddMissingDir(files, dirs, entries, Missing(up, dirs), p);
      }
    }
  }

  /** Two maps that agree except at `a` agree at every other key. */
  lemma SameElsewhere(m1: map<Path, string>, m2: map<Path, string>, a: Path, k: Path)
    requires m1 - {a} == m2 - {a} && k != a
    ensures (k in m1 <==> k in m2) && (k in m1 ==> m1[k] == m2[k])
  {
    assert k in m1 <==> k in m1 - {a};
    assert k in m2 <==> k in m2 - {a};
    if k in m1 {
      assert m1[k] == (m1 - {a})[k];
    }
  }

  class Fs {
    var files: map<Path, string>
    var dirs: set<Path>
    var entries: seq<Path>

    ghost predicate Valid()
      reads this
    {
      Consistent(files, dirs, entries)
    }

    constructor (files: map<Path, string>, dirs: set<Path>, entries: seq<Path>)
      requires Consistent(files, dirs, entries)
      ensures Valid()
      ensures this.files == files && this.dirs == dirs && this.entries == entries
    {
      this.files := files;
      this.dirs := dirs;
      this.entries := entries;
    }

    /** `fs.lstatSync(p).isDirectory()` for an existing `p`. */
    predicate IsDir(p: Path)
      reads this
    {
      IsDirIn(dirs, p)
    }

    /** `fs.existsSync(p)`. */
    predicate Exists(p: Path)
      reads this
    {
      p in files || IsDir(p)
    }

    /** What `writeFileSync(p, ...)` needs. */
    predicate CanWrite(p: Path)
      reads this
    {
      CanWriteIn(dirs, p)
    }

    /** The entries `readdirSync(d)` returns, in listing order. */
    function List(d: Path): seq<string>
      reads this
    {
      Children(entries, d)
    }

    /** `fs.readdirSync(d)`. */
    function ReadDir(d: Path): (r: Result<seq<string>>)
      reads this
      ensures r.Value? <==> IsDir(d)
      ensures r.Value? ==> r.value == List(d)
    {
      if IsDir(d) then Value(List(d))
      else Error(if d in files then "ENOTDIR" else "ENOENT")
    }

    /** `fs.readFileSync(p, 'utf-8')`. */
    function ReadFile(p: Path): (r: Result<string>)
      reads this
      ensures r.Value? <==> p in files
      ensures r.Value? ==> r.value == files[p]
    {
      if p in files then Value(files[p])
      else Error(if IsDir(p) then "EISDIR" else "ENOENT")
    }

    /** `fs.writeFileSync(p, content)`: creates or replaces a file. */
    method WriteFile(p: Path, content: string) returns (r: Outcome)
      requires Valid()
      modifies this
      ensures Valid()
      ensures r.Ok? <==> old(CanWrite(p))
      ensures r.Ok? ==> files == old(files)[p := content] && dirs == old(dirs)
      ensures r.Ok? ==> entries == Written(old(entries), old(files), p)
      ensures r.Fail? ==> unchanged(this)
    {
      if p == [] || p in dirs {
        return Fail("EISDIR");
      }
      if !IsDir(Parent(p)) {
        return Fail(if Parent(p) in files then "ENOTDIR" else "ENOENT");
      }
      AddFile(files, dirs, entries, p, content);
      if p !in files {
        entries := entries + [p];
      }
      files := files[p := content];
      r := Ok;
    }

    /** `fs.unlinkSync(p)`: removes a file. */
    method Unlink(p: Path) returns (r: Outcome)
      requires Valid()
      modifies this
      ensures Valid()
      ensures r.Ok? <==> p in old(files)
      ensures r.Ok? ==> files == old(files) - {p} && dirs == old(dirs)
      ensures r.Ok? ==> entries == Without(old(entries), p)
      ensures r.Fail? ==> unchanged(this)
    {
      if p !in files {
        return Fail(if IsDir(p) then "EISDIR" else "ENOENT");
      }
      RemoveFile(files, dirs, entries, p);
      files := files - {p};
      entries := Without(entries, p);
      r := Ok;
    }

    /** `fs.linkSync(src, dst)`: a new name for an existing file. */
    method Link(src: Path, dst: Path) returns (r: Outcome)
      requires Valid()
      modifies this
      ensures Valid()
      ensures r.Ok? <==> old(src in files && !Exists(dst) && IsDir(Parent(dst)))
      ensures r.Ok? ==> files == old(files)[dst := old(files)[src]] && dirs == old(dirs)
      ensures r.Ok? ==> entries == old(entries) + [dst]
      ensures r.Fail? ==> unchanged(this)
    {
      if src !in files {
        return Fail(if IsDir(src) then "EPERM" else "ENOENT");
      }
      if Exists(dst) {
        return Fail("EEXIST");
      }
      if !IsDir(Parent(dst)) {
        return Fail(if Parent(dst) in files then "ENOTDIR" else "ENOENT");
      }
      AddFile(files, dirs, entries, dst, files[src]);
      files := files[dst := files[src]];
      entries := entries + [dst];
      r := Ok;
    }

    /** No prefix of `p` is a file. */
    predicate NoFileOnPath(p: Path)
      reads this
    {
      NoFileOn(files, p)
    }

    /** `fs.mkdirSync(p, { recursive: true })`: creates every missing
        directory on the way to `p`, shortest first; it throws when a prefix
        of `p` is a file, having created nothing. */
    method MakeDirectory(p: Path) returns (r: Outcome)
      requires Valid()
      modifies this
      ensures Valid()
      ensures r.Ok? <==> old(NoFileOnPath(p))
      ensures r.Ok? ==> IsDir(p) && files == old(files)
      ensures r.Ok? ==> dirs == MadeDirs(old(dirs), p)
      ensures r.Ok? ==> entries == old(entries) + Missing(p, old(dirs))
      ensures r.Fail? ==> unchanged(this)
    {
      if !NoFileOnPath(p) {
        return Fail(if p in files then "EEXIST" else "ENOTDIR");
      }
      AddMissing(files, dirs, entries, p);
      var ms := Missing(p, dirs);
      dirs, entries := dirs + (set q | q in ms), entries + ms;
      r := Ok;
    }
  }
}
