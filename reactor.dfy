/** The project commands of the CLI: `state` and `component`, and the
    helpers they share with `build` (`validateLocation`,
    `ensureFolderExists`, `updateFile`).

    Every command runs in the working directory of a project. The file
    system is an `Fs` object; the rest of the world the commands depend on
    is an `Env` value. Line numbers in the comments of this module are
    those of src/reactor.ts. */
module Reactor {
  import opened Results
  import opened Paths
  import opened Json
  import opened SliceNames
  import opened FileSystem

  /** The view a Mustache template is rendered with. */
  datatype Context =
    | SliceView(name: string, capName: string)
    | ComponentView(name: string)
    | IndexView(slices: seq<string>)

  /** What the commands take from outside the file system. */
  datatype Env = Env(
    packageName: string,                 // `name` in the CLI's own package.json
    dist: Path,                          // the directory of the running script
    render: (string, Context) -> string, // Mustache.render
    parse: string -> Option<Json>,       // JSON.parse; None when it throws
    stringify: Json -> string,           // JSON.stringify(v, null, '  ')
    text: Json -> string)                // String(v), for a value that is not a string

  const PackageJson: Path := ["package.json"]
  const StateDir: Path := ["src", "state"]
  const IndexPath: Path := ["src", "state", "index.ts"]
  const ComponentsDir: Path := ["src", "components"]

  /** `path.dirname(p)`. */
  function Dirname(p: Path): Path
  {
    if p == [] then [] else Parent(p)
  }

  /** The templates directory, a sibling of the script's directory. */
  function TemplateDir(env: Env): Path
  {
    Join(Dirname(env.dist), "templates")
  }

  function Template(env: Env, file: string): Path
  {
    Join(TemplateDir(env), file)
  }

  function SliceTemplate(env: Env): Path { Template(env, "stateSlice.ts.mustache") }
  function IndexTemplate(env: Env): Path { Template(env, "state.ts.mustache") }
  function ComponentTemplate(env: Env): Path { Template(env, "component.tsx.mustache") }

  /** Where `state add name` writes the slice. */
  function SlicePath(name: string): Path
  {
    Join(StateDir, SliceFile(name))
  }

  /** Where `component add name` writes the component. */
  function ComponentPath(name: string): Path
  {
    Join(ComponentsDir, name + ".tsx")
  }

  predicate IsRemoveVerb(verb: string)
  {
    verb == "remove" || verb == "rmv" || verb == "del" || verb == "delete"
  }

  predicate EndsWith(s: string, suffix: string)
  {
    |suffix| <= |s| && s[|s| - |suffix|..] == suffix
  }

  // ---- where things are ----

  /** The fixed file names the CLI joins are single plain segments. A fact
      about literals only, kept apart so that the methods joining these
      names do not carry the literals in their own proofs. */
  lemma FileName(file: string)
    requires file == "package.json" || file == "state.ts.mustache" || file == "stateSlice.ts.mustache"
             || file == "main.js"
    ensures Plain(file) && NoSlash(file)
  {
  }

  /** Whatever the name, the slice file's name ends with "Slice.ts". */
  lemma SliceLeaf(name: string)
    ensures SlicePath(name) != [] && EndsWith(Leaf(SlicePath(name)), "Slice.ts")
  {
    var r := Split(name);
    assert NoSlash("Slice.ts");
    SplitAppend(name, "Slice.ts");
    var last := r[|r| - 1] + "Slice.ts";
    assert Split(SliceFile(name))[|Split(SliceFile(name))| - 1] == last;
    assert last[|last| - 8..] == "Slice.ts";
    JoinLeaf(StateDir, SliceFile(name));
  }

  /** A name without '/' puts the slice directly in the state directory. */
  lemma SliceInStateDir(name: string)
    requires NoSlash(name)
    ensures SlicePath(name) == StateDir + [SliceFile(name)]
  {
    var f := SliceFile(name);
    forall i | 0 <= i < |f| ensures f[i] != '/' {
      if i >= |name| { assert f[i] == "Slice.ts"[i - |name|]; }
    }
    assert |f| >= 8;
    JoinName(StateDir, f);
  }

  /** The slice file is never the index or the project's package.json. */
  lemma SliceNotIndex(name: string)
    ensures SlicePath(name) != IndexPath && SlicePath(name) != PackageJson
  {
    SliceLeaf(name);
    var leaf := Leaf(SlicePath(name));
    assert leaf[|leaf| - 8] == 'S';
    assert "index.ts"[0] == 'i';
  }

  /** The slice file is never one of the templates: its name ends in 's',
      theirs in 'e'. */
  lemma SliceNotTemplate(env: Env, name: string, file: string)
    requires file == "stateSlice.ts.mustache" || file == "state.ts.mustache"
    ensures SlicePath(name) != Template(env, file)
  {
    SliceLeaf(name);
    var leaf := Leaf(SlicePath(name));
    assert leaf[|leaf| - 1] == 's';
    FileName(file);
    LeafOfJoin(TemplateDir(env), file);
    assert file[|file| - 1] == 'e';
  }

  lemma IndexTemplateApart(env: Env)
    ensures IndexTemplate(env) != IndexPath
  {
    FileName("state.ts.mustache");
    LeafOfJoin(TemplateDir(env), "state.ts.mustache");
  }

  // ---- validateLocation ----

  /** The parsed package.json, when it is a non-empty file that parses. */
  function Config(files: map<Path, string>, env: Env): Option<Json>
  {
    if PackageJson in files && files[PackageJson] != "" then env.parse(files[PackageJson]) else None
  }

  /** The working directory is a project that lists the CLI among its
      development dependencies. */
  predicate LocationValid(files: map<Path, string>, env: Env)
  {
    var cfg := Config(files, env);
    cfg.Some? && !cfg.value.JNull?
    && var deps := Get(cfg.value, "devDependencies");
       Truthy(deps) && Truthy(Get(deps.value, env.packageName))
  }

  /** `validateLocation`: reads package.json and stops the CLI unless the
      project depends on it. */
  method ValidateLocation(fs: Fs, env: Env) returns (r: Outcome)
    requires fs.Valid()
    ensures r.Ok? <==> LocationValid(fs.files, env)
    ensures !fs.Exists(PackageJson) ==> r == Fail("did not find package.json")
    ensures fs.IsDir(PackageJson) ==> r == Fail("EISDIR")
    ensures PackageJson in fs.files && fs.files[PackageJson] == "" ==> r == Fail("error reading package.json")
    ensures Config(fs.files, env) == Some(JNull) ==> r == Fail("TypeError")
    ensures PackageJson in fs.files && fs.files[PackageJson] != "" && Config(fs.files, env).None?
            ==> r == Fail("SyntaxError")
    ensures Config(fs.files, env).Some? && !Config(fs.files, env).value.JNull? && r.Fail?
            ==> r == Fail(env.packageName + " is not a dependency")
  {
    if !fs.Exists(PackageJson) {
      return Fail("did not find package.json");
    }
    var json := fs.ReadFile(PackageJson);
    if json.Error? {
      return Fail(json.msg);
    }
    if json.value == "" {
      return Fail("error reading package.json");
    }
    var cfg := env.parse(json.value);
    if cfg.None? {
      return Fail("SyntaxError");
    }
    if cfg.value.JNull? {
      // reading a property of null throws
      return Fail("TypeError");
    }
    var deps := Get(cfg.value, "devDependencies");
    if !Truthy(deps) || !Truthy(Get(deps.value, env.packageName)) {
      return Fail(env.packageName + " is not a dependency");
    }
    r := Ok;
  }

  // ---- ensureFolderExists and updateFile ----

  /** `ensureFolderExists(dir)`: creates `dir` and its missing parents
      unless it is a directory already. */
  method EnsureFolderExists(fs: Fs, dir: Path) returns (r: Outcome)
    requires fs.Valid()
    modifies fs
    ensures fs.Valid()
    ensures r.Ok? <==> old(fs.NoFileOnPath(dir))
    ensures r.Ok? ==> fs.IsDir(dir) && fs.files == old(fs.files)
    ensures r.Ok? ==> fs.dirs == MadeDirs(old(fs.dirs), dir)
    ensures r.Ok? ==> fs.entries == old(fs.entries) + Missing(dir, old(fs.dirs))
    ensures old(fs.IsDir(dir)) || r.Fail? ==> unchanged(fs)
  {
    if fs.IsDir(dir) {
      DirOnPath(fs.files, fs.dirs, dir);
      NothingMissing(fs.files, fs.dirs, dir);
      assert fs.entries + [] == fs.entries;
      return Ok;
    }
    r := fs.MakeDirectory(dir);
  }

  /** What `updateFile` needs to succeed: the source is a file, and the
      destination is a different path that is not a directory, in a
      directory. */
  predicate CanUpdate(fs: Fs, src: Path, dst: Path)
    reads fs
  {
    src in fs.files && src != dst && dst != [] && dst !in fs.dirs && fs.IsDir(Parent(dst))
  }

  /** `updateFile(srcdir, dstdir, file)`, with `src` and `dst` the joined
      paths `srcdir/file` and `dstdir/file`: replaces `dst` by a hard link
      to `src`. Only `dst` changes. */
  method UpdateFile(fs: Fs, src: Path, dst: Path) returns (r: Outcome)
    requires fs.Valid()
    modifies fs
    ensures fs.Valid() && fs.dirs == old(fs.dirs)
    ensures fs.files - {dst} == old(fs.files) - {dst}
    ensures r.Ok? <==> old(CanUpdate(fs, src, dst))
    ensures !old(fs.Exists(src)) ==> r == Fail(Text(src) + " doesn't exist") && unchanged(fs)
    ensures r.Ok? ==> fs.files == old(fs.files)[dst := old(fs.files)[src]]
    ensures r.Ok? ==> fs.entries == (if dst in old(fs.files) then Without(old(fs.entries), dst)
                                     else old(fs.entries)) + [dst]
    // updating a file onto itself unlinks it before the link can be made
    ensures src == dst && src in old(fs.files) ==> r.Fail? && fs.files == old(fs.files) - {src}
    ensures dst in old(fs.dirs) ==> r.Fail? && unchanged(fs)
    // a failure after the unlink of line 250 leaves the destination removed; any other failure changes nothing
    ensures r.Fail? ==> if old(fs.Exists(src)) && dst in old(fs.files)
                        then fs.files == old(fs.files) - {dst} && fs.entries == Without(old(fs.entries), dst)
                        else fs.files == old(fs.files) && fs.entries == old(fs.entries)
  {
    if !fs.Exists(src) {
      return Fail(Text(src) + " doesn't exist");
    }
    if dst in fs.files {
      r := ReplaceFile(fs, src, dst);
    } else {
      r := LinkFresh(fs, src, dst);
    }
  }

  /** Lines 249-253 when the destination is a file: it is unlinked, then
      linked to the source; a failing link leaves it removed. */
  method ReplaceFile(fs: Fs, src: Path, dst: Path) returns (r: Outcome)
    requires fs.Valid() && fs.Exists(src) && dst in fs.files
    modifies fs
    ensures fs.Valid() && fs.dirs == old(fs.dirs)
    ensures r.Ok? <==> old(CanUpdate(fs, src, dst))
    ensures r.Ok? ==> fs.files == old(fs.files)[dst := old(fs.files)[src]]
                      && fs.entries == Without(old(fs.entries), dst) + [dst]
    ensures r.Fail? ==> fs.files == old(fs.files) - {dst} && fs.entries == Without(old(fs.entries), dst)
  {
    ghost var files := fs.files;
    assert dst != [] && dst !in fs.dirs;
    r := fs.Unlink(dst);
    r := fs.Link(src, dst);
    if r.Ok? {
      Replaced(files, src, dst);
    }
  }

  /** Replacing a file by a copy of another is the same as removing it
      first. */
  lemma Replaced(files: map<Path, string>, src: Path, dst: Path)
    requires src in files && src != dst
    ensures (files - {dst})[dst := files[src]] == files[dst := files[src]]
  {
  }

  /** Lines 249-253 when the destination is not a file: an existing
      directory there fails the unlink, otherwise the source is linked. */
  method LinkFresh(fs: Fs, src: Path, dst: Path) returns (r: Outcome)
    requires fs.Valid() && fs.Exists(src) && dst !in fs.files
    modifies fs
    ensures fs.Valid() && fs.dirs == old(fs.dirs)
    ensures r.Ok? <==> old(CanUpdate(fs, src, dst))
    ensures r.Ok? ==> fs.files == old(fs.files)[dst := old(fs.files)[src]]
                      && fs.entries == old(fs.entries) + [dst]
    ensures old(fs.IsDir(dst)) ==> r.Fail? && unchanged(fs)
    ensures r.Fail? ==> fs.files == old(fs.files) && fs.entries == old(fs.entries)
  {
    r := ClearDestination(fs, dst);
    if r.Fail? {
      assert fs.IsDir(dst);
      return;
    }
    assert fs.files == old(fs.files) && fs.entries == old(fs.entries);
    r := fs.Link(src, dst);
  }

  /** Lines 249-251: an existing destination is unlinked first. */
  method ClearDestination(fs: Fs, dst: Path) returns (r: Outcome)
    requires fs.Valid()
    modifies fs
    ensures fs.Valid() && fs.dirs == old(fs.dirs)
    ensures r.Ok? <==> !old(fs.Exists(dst)) || dst in old(fs.files)
    ensures r.Ok? ==> fs.files == old(fs.files) - {dst} && !fs.Exists(dst)
    ensures r.Ok? ==> fs.entries == if dst in old(fs.files) then Without(old(fs.entries), dst) else old(fs.entries)
    ensures r.Fail? ==> unchanged(fs)
  {
    if fs.Exists(dst) {
      r := fs.Unlink(dst);
    } else {
      r := Ok;
    }
  }

  // ---- the state command ----

  /** The index the file system calls for: the index template rendered with
      the slices the state directory lists, in listing order. */
  function IndexCode(files: map<Path, string>, entries: seq<Path>, env: Env): string
    requires IndexTemplate(env) in files
  {
    env.render(files[IndexTemplate(env)], IndexView(Slices(Children(entries, StateDir))))
  }

  /** The index is up to date with the state directory. */
  predicate IndexCurrent(files: map<Path, string>, entries: seq<Path>, env: Env)
  {
    IndexTemplate(env) in files && IndexPath in files && files[IndexPath] == IndexCode(files, entries, env)
  }

  /** Writing the index makes it current: the new "index.ts" entry is not a
      slice, and the template is not the index. */
  lemma {:induction false} RebuildMakesCurrent(files: map<Path, string>, entries: seq<Path>, env: Env)
    requires IndexTemplate(env) in files
    ensures IndexCurrent(files[IndexPath := IndexCode(files, entries, env)],
                         if IndexPath in files then entries else entries + [IndexPath], env)
  {
    IndexTemplateApart(env);
    if IndexPath !in files {
      ChildrenAppend(entries, [IndexPath], StateDir);
      assert Children([IndexPath], StateDir) == ["index.ts"];
      SlicesAppend(Children(entries, StateDir), ["index.ts"]);
      IndexFileIgnored("index.ts");
      assert Slices(["index.ts"]) == [];
      assert Slices(Children(entries, StateDir)) + [] == Slices(Children(entries, StateDir));
    }
  }

  // ---- what the commands leave behind ----

  /** Whether `ensureFolderExists(dir)` followed by writing `p` from
      `template` succeeds: no file on the way to `dir`, the template is a
      file, and `p` can be written once `dir` exists. */
  predicate CanRender(files: map<Path, string>, dirs: set<Path>, dir: Path, template: Path, p: Path)
  {
    NoFileOn(files, dir) && template in files && CanWriteIn(MadeDirs(dirs, dir), p)
  }

  /** The files once `p` holds `template` rendered for `view`. */
  function RenderFiles(files: map<Path, string>, env: Env, template: Path, p: Path, view: Context): map<Path, string>
    requires template in files
  {
    files[p := env.render(files[template], view)]
  }

  /** The listing once `dir` is created and `p` written. */
  function RenderEntries(files: map<Path, string>, dirs: set<Path>, entries: seq<Path>, dir: Path, p: Path): seq<Path>
  {
    Written(entries + Missing(dir, dirs), files, p)
  }

  /** The file system (`files'`, `dirs'`, `entries'`) after
      `ensureFolderExists(dir)`, reading `template` and writing `p` with it
      rendered for `view`, from the one before (`files`, `dirs`, `entries`).
      A file on the way to `dir` stops the command before anything
      changes; a missing template or an unwritable `p` stops it with `dir`
      already made. */
  ghost predicate Rendered(files: map<Path, string>, dirs: set<Path>, entries: seq<Path>,
                           files': map<Path, string>, dirs': set<Path>, entries': seq<Path>,
                           r: Outcome, env: Env, dir: Path, template: Path, p: Path, view: Context)
  {
    && (r.Ok? <==> CanRender(files, dirs, dir, template, p))
    && if !NoFileOn(files, dir) then files' == files && dirs' == dirs && entries' == entries
       else
         && dirs' == MadeDirs(dirs, dir)
         && if r.Ok? then files' == RenderFiles(files, env, template, p, view)
                         && entries' == RenderEntries(files, dirs, entries, dir, p)
            else files' == files && entries' == entries + Missing(dir, dirs)
  }

  /** The file system after the index is rebuilt (lines 90-99), from the one
      before: it succeeds when src/state is a directory, the index template
      a file and the index no directory, and then writes the index the
      listing calls for. */
  ghost predicate IndexRebuilt(files: map<Path, string>, dirs: set<Path>, entries: seq<Path>,
                               files': map<Path, string>, dirs': set<Path>, entries': seq<Path>,
                               r: Outcome, env: Env)
  {
    && dirs' == dirs
    && (r.Ok? <==> IsDirIn(dirs, StateDir) && IndexTemplate(env) in files && IndexPath !in dirs)
    && if r.Ok? then files' == files[IndexPath := IndexCode(files, entries, env)]
                    && entries' == Written(entries, files, IndexPath)
       else files' == files && entries' == entries
  }

  /** The file system after `state add name` (lines 60-69, then 90-99): the
      slice is written as `Rendered` says, and the index is rebuilt from
      what that leaves. */
  ghost predicate SliceAdded(files: map<Path, string>, dirs: set<Path>, entries: seq<Path>,
                             files': map<Path, string>, dirs': set<Path>, entries': seq<Path>,
                             r: Outcome, env: Env, name: string)
  {
    var template, p, view := SliceTemplate(env), SlicePath(name), SliceView(name, Capitalize(name));
    if CanRender(files, dirs, StateDir, template, p) then
      IndexRebuilt(RenderFiles(files, env, template, p, view), MadeDirs(dirs, StateDir),
                   RenderEntries(files, dirs, entries, StateDir, p), files', dirs', entries', r, env)
    else
      Rendered(files, dirs, entries, files', dirs', entries', r, env, StateDir, template, p, view)
  }

  /** The file system after `state remove name` (lines 70-82, then 90-99):
      a missing slice changes nothing; otherwise the slice goes and the
      index is rebuilt without it. */
  ghost predicate SliceRemoved(files: map<Path, string>, dirs: set<Path>, entries: seq<Path>,
                               files': map<Path, string>, dirs': set<Path>, entries': seq<Path>,
                               r: Outcome, env: Env, name: string)
  {
    var p := SlicePath(name);
    if p in files then IndexRebuilt(files - {p}, dirs, Without(entries, p), files', dirs', entries', r, env)
    else r.Fail? && files' == files && dirs' == dirs && entries' == entries
  }

  /** Lines 90-99: lists the state directory and rewrites the index from it. */
  method RebuildIndex(fs: Fs, env: Env) returns (r: Outcome)
    requires fs.Valid()
    modifies fs
    ensures fs.Valid()
    ensures IndexRebuilt(old(fs.files), old(fs.dirs), old(fs.entries), fs.files, fs.dirs, fs.entries, r, env)
    ensures r.Ok? ==> IndexCurrent(fs.files, fs.entries, env)
  {
    var listing := fs.ReadDir(StateDir);
    if listing.Error? {
      return Fail(listing.msg);
    }
    var slices := Slices(listing.value);
    var template := fs.ReadFile(IndexTemplate(env));
    if template.Error? {
      return Fail(template.msg);
    }
    var code := env.render(template.value, IndexView(slices));
    RebuildMakesCurrent(fs.files, fs.entries, env);
    r := fs.WriteFile(IndexPath, code);
  }

  /** `reactor state <verb> <name>`: adds or removes the slice `name`, then
      rebuilds the index from the state directory. */
  method StateCommand(fs: Fs, env: Env, verb: string, name: string) returns (r: Outcome)
    requires fs.Valid()
    modifies fs
    ensures fs.Valid()
    ensures !old(LocationValid(fs.files, env)) ==> r.Fail? && unchanged(fs)
    ensures old(LocationValid(fs.files, env)) && verb != "add" && verb != "update" && !IsRemoveVerb(verb)
            ==> r == Fail("unknown state verb '" + verb + "'") && unchanged(fs)
    ensures old(LocationValid(fs.files, env)) && verb == "add" ==>
              && SliceAdded(old(fs.files), old(fs.dirs), old(fs.entries), fs.files, fs.dirs, fs.entries, r, env, name)
              && (r.Ok? <==> old(CanRender(fs.files, fs.dirs, StateDir, SliceTemplate(env), SlicePath(name))
                                  && IndexTemplate(env) in fs.files && IndexPath !in fs.dirs))
    ensures old(LocationValid(fs.files, env)) && IsRemoveVerb(verb) ==>
              && SliceRemoved(old(fs.files), old(fs.dirs), old(fs.entries), fs.files, fs.dirs, fs.entries, r, env, name)
              && (r.Ok? <==> old(SlicePath(name) in fs.files && fs.IsDir(StateDir)
                                  && IndexTemplate(env) in fs.files && IndexPath !in fs.dirs))
    ensures old(LocationValid(fs.files, env)) && IsRemoveVerb(verb) && !old(fs.Exists(SlicePath(name)))
            ==> r == Fail(Text(SlicePath(name)) + " not found")
    ensures old(LocationValid(fs.files, env)) && verb == "update" ==>
              IndexRebuilt(old(fs.files), old(fs.dirs), old(fs.entries), fs.files, fs.dirs, fs.entries, r, env)
    ensures r.Ok? ==> old(LocationValid(fs.files, env)) && IndexCurrent(fs.files, fs.entries, env)
  {
    r := ValidateLocation(fs, env);
    if r.Fail? {
      return;
    }
    r := StateVerb(fs, env, verb, name);
  }

  /** Lines 60-99 once the location is valid: the verb's branch, then the
      index. */
  method StateVerb(fs: Fs, env: Env, verb: string, name: string) returns (r: Outcome)
    requires fs.Valid()
    modifies fs
    ensures fs.Valid()
    ensures verb != "add" && verb != "update" && !IsRemoveVerb(verb)
            ==> r == Fail("unknown state verb '" + verb + "'") && unchanged(fs)
    ensures verb == "add" ==>
              && SliceAdded(old(fs.files), old(fs.dirs), old(fs.entries), fs.files, fs.dirs, fs.entries, r, env, name)
              && (r.Ok? <==> old(CanRender(fs.files, fs.dirs, StateDir, SliceTemplate(env), SlicePath(name))
                                  && IndexTemplate(env) in fs.files && IndexPath !in fs.dirs))
    ensures IsRemoveVerb(verb) ==>
              && SliceRemoved(old(fs.files), old(fs.dirs), old(fs.entries), fs.files, fs.dirs, fs.entries, r, env, name)
              && (r.Ok? <==> old(SlicePath(name) in fs.files && fs.IsDir(StateDir)
                                  && IndexTemplate(env) in fs.files && IndexPath !in fs.dirs))
    ensures IsRemoveVerb(verb) && !old(fs.Exists(SlicePath(name)))
            ==> r == Fail(Text(SlicePath(name)) + " not found")
    ensures verb == "update" ==>
              IndexRebuilt(old(fs.files), old(fs.dirs), old(fs.entries), fs.files, fs.dirs, fs.entries, r, env)
    ensures r.Ok? ==> IndexCurrent(fs.files, fs.entries, env)
  {
    if verb == "add" {
      r := StateAdd(fs, env, name);
    } else if IsRemoveVerb(verb) {
      r := StateRemove(fs, env, name);
    } else if verb == "update" {
      r := RebuildIndex(fs, env);
    } else {
      r := Fail("unknown state verb '" + verb + "'");
    }
  }

  /** An index that is up to date makes `state update` change nothing. */
  lemma UpdateIdempotent(files: map<Path, string>, dirs: set<Path>, entries: seq<Path>,
                         files': map<Path, string>, dirs': set<Path>, entries': seq<Path>, r: Outcome, env: Env)
    requires IndexRebuilt(files, dirs, entries, files', dirs', entries', r, env)
    requires IndexCurrent(files, entries, env)
    ensures files' == files && dirs' == dirs && entries' == entries
  {
    if r.Ok? {
      assert files[IndexPath := files[IndexPath]] == files;
    }
  }

  /** `state add name` once the location is valid: the slice, then the index. */
  method StateAdd(fs: Fs, env: Env, name: string) returns (r: Outcome)
    requires fs.Valid()
    modifies fs
    ensures fs.Valid()
    ensures SliceAdded(old(fs.files), old(fs.dirs), old(fs.entries), fs.files, fs.dirs, fs.entries, r, env, name)
    ensures r.Ok? <==> old(CanRender(fs.files, fs.dirs, StateDir, SliceTemplate(env), SlicePath(name))
                           && IndexTemplate(env) in fs.files && IndexPath !in fs.dirs)
    ensures r.Ok? ==> IndexCurrent(fs.files, fs.entries, env)
    // a name the pattern captures whole is among the slices the index lists
    ensures r.Ok? && NoSlash(name) && NoTerminator(name) ==> name in Slices(Children(fs.entries, StateDir))
  {
    ghost var files, dirs := fs.files, fs.dirs;
    r := AddSlice(fs, env, name);
    if r.Fail? {
      return;
    }
    SliceNotIndex(name);
    SliceNotTemplate(env, name, "state.ts.mustache");
    MadeAbove(dirs, StateDir, IndexPath);
    r := RebuildIndex(fs, env);
    if r.Ok? && NoSlash(name) && NoTerminator(name) {
      SliceListed(fs.files, fs.dirs, fs.entries, name);
    }
  }

  /** `state remove name` once the location is valid: the slice goes, and
      the index is rebuilt without it. */
  method StateRemove(fs: Fs, env: Env, name: string) returns (r: Outcome)
    requires fs.Valid()
    modifies fs
    ensures fs.Valid()
    ensures SliceRemoved(old(fs.files), old(fs.dirs), old(fs.entries), fs.files, fs.dirs, fs.entries, r, env, name)
    ensures r.Ok? <==> old(SlicePath(name) in fs.files && fs.IsDir(StateDir)
                           && IndexTemplate(env) in fs.files && IndexPath !in fs.dirs)
    ensures !old(fs.Exists(SlicePath(name))) ==> r == Fail(Text(SlicePath(name)) + " not found")
    ensures r.Ok? ==> IndexCurrent(fs.files, fs.entries, env)
    // the removed slice's file is no longer among the entries the index is built from
    ensures r.Ok? && NoSlash(name) ==> SliceFile(name) !in Children(fs.entries, StateDir)
  {
    r := RemoveSlice(fs, name);
    if r.Fail? {
      return;
    }
    SliceNotIndex(name);
    SliceNotTemplate(env, name, "state.ts.mustache");
    r := RebuildIndex(fs, env);
    if r.Ok? && NoSlash(name) {
      SliceUnlisted(fs.files, fs.dirs, fs.entries, name);
    }
  }

  /** The `add` branch of the state command (lines 62-68). */
  method AddSlice(fs: Fs, env: Env, name: string) returns (r: Outcome)
    requires fs.Valid()
    modifies fs
    ensures fs.Valid()
    ensures Rendered(old(fs.files), old(fs.dirs), old(fs.entries), fs.files, fs.dirs, fs.entries, r, env,
                     StateDir, SliceTemplate(env), SlicePath(name), SliceView(name, Capitalize(name)))
    ensures r.Ok? ==> fs.IsDir(StateDir)
  {
    var capName := Capitalize(name);
    var slicePath := SlicePath(name);
    r := EnsureFolderExists(fs, StateDir);
    if r.Fail? {
      return;
    }
    var template := fs.ReadFile(SliceTemplate(env));
    if template.Error? {
      return Fail(template.msg);
    }
    var code := env.render(template.value, SliceView(name, capName));
    r := fs.WriteFile(slicePath, code);
  }

  /** The `remove` branch of the state command (lines 71-81). */
  method RemoveSlice(fs: Fs, name: string) returns (r: Outcome)
    requires fs.Valid()
    modifies fs
    ensures fs.Valid() && fs.dirs == old(fs.dirs)
    ensures r.Ok? <==> SlicePath(name) in old(fs.files)
    ensures !old(fs.Exists(SlicePath(name))) ==> r == Fail(Text(SlicePath(name)) + " not found")
    ensures r.Ok? ==> fs.files == old(fs.files) - {SlicePath(name)}
                      && fs.entries == Without(old(fs.entries), SlicePath(name))
    ensures r.Fail? ==> unchanged(fs)
  {
    var slicePath := SlicePath(name);
    if !fs.Exists(slicePath) {
      return Fail(Text(slicePath) + " not found");
    }
    r := fs.Unlink(slicePath);
  }

  /** A slice file present in the state directory is named in the index. */
  lemma SliceListed(files: map<Path, string>, dirs: set<Path>, entries: seq<Path>, name: string)
    requires Consistent(files, dirs, entries) && NoSlash(name) && NoTerminator(name)
    requires SlicePath(name) in files
    ensures name in Slices(Children(entries, StateDir))
  {
    SliceInStateDir(name);
    ChildrenMembership(entries, StateDir, SliceFile(name));
    RoundTrip(name);
    SlicesMembership(Children(entries, StateDir), name);
  }

  /** A removed slice's file is no longer listed. */
  lemma SliceUnlisted(files: map<Path, string>, dirs: set<Path>, entries: seq<Path>, name: string)
    requires Consistent(files, dirs, entries) && NoSlash(name)
    requires SlicePath(name) !in files && SlicePath(name) !in dirs
    ensures SliceFile(name) !in Children(entries, StateDir)
  {
    SliceInStateDir(name);
    ChildrenMembership(entries, StateDir, SliceFile(name));
  }

  // ---- a session of state commands ----

  /** Before src/state exists nothing is listed in it, the index is absent,
      and making src/state does not make the index a directory. */
  lemma FreshStateDir(files: map<Path, string>, dirs: set<Path>, entries: seq<Path>)
    requires Consistent(files, dirs, entries) && StateDir !in dirs
    ensures IndexPath == StateDir + ["index.ts"]
    ensures IndexPath !in files && IndexPath !in MadeDirs(dirs, StateDir)
    ensures Children(entries + Missing(StateDir, dirs), StateDir) == []
  {
    assert IndexPath[..2] == StateDir;
    MadeAbove(dirs, StateDir, IndexPath);
    var listed := Children(entries + Missing(StateDir, dirs), StateDir);
    if listed != [] {
      Unlisted(files, dirs, entries, listed[0]);
      ChildrenMembership(entries + Missing(StateDir, dirs), StateDir, listed[0]);
      assert false;
    }
  }

  /** Before src/state exists no entry lies directly inside it, not even
      among the directories making it creates. */
  lemma Unlisted(files: map<Path, string>, dirs: set<Path>, entries: seq<Path>, x: string)
    requires Consistent(files, dirs, entries) && StateDir !in dirs
    ensures StateDir + [x] !in entries + Missing(StateDir, dirs)
  {
    var q := StateDir + [x];
    assert q[..2] == StateDir;
  }

  /** Before src/state exists a slice file in it is neither a file nor made
      a directory. */
  lemma FreshSlice(files: map<Path, string>, dirs: set<Path>, name: string)
    requires Tree(files, dirs) && StateDir !in dirs && NoSlash(name)
    ensures SlicePath(name) == StateDir + [SliceFile(name)]
    ensures SlicePath(name) !in files && SlicePath(name) !in MadeDirs(dirs, StateDir)
  {
    SliceInStateDir(name);
    assert SlicePath(name)[..2] == StateDir;
    MadeAbove(dirs, StateDir, SlicePath(name));
  }

  /** Listing one more entry of src/state lists its name last. */
  lemma ListedLast(entries: seq<Path>, x: string)
    ensures Children(entries + [StateDir + [x]], StateDir) == Children(entries, StateDir) + [x]
  {
    ChildrenAppend(entries, [StateDir + [x]], StateDir);
    assert [StateDir + [x]][..0] == [];
  }

  /** The location depends on package.json alone. */
  lemma LocationKept(files: map<Path, string>, files': map<Path, string>, env: Env)
    requires PackageJson in files' <==> PackageJson in files
    requires PackageJson in files ==> files'[PackageJson] == files[PackageJson]
    ensures LocationValid(files', env) == LocationValid(files, env)
  {
    assert Config(files', env) == Config(files, env);
  }

  /** `state add name` for a slash-free name whose slice and index paths
      are not directories, with both templates present and nothing but
      directories on the way to src/state: it succeeds, writes just the
      slice and the index, and lists them after what it made. */
  lemma AddStep(files: map<Path, string>, dirs: set<Path>, entries: seq<Path>,
                files': map<Path, string>, dirs': set<Path>, entries': seq<Path>,
                r: Outcome, env: Env, name: string)
    requires NoFileOn(files, StateDir) && SliceTemplate(env) in files && IndexTemplate(env) in files
    requires NoSlash(name)
    requires SlicePath(name) !in MadeDirs(dirs, StateDir) && IndexPath !in MadeDirs(dirs, StateDir)
    requires SliceAdded(files, dirs, entries, files', dirs', entries', r, env, name)
    ensures r.Ok? && dirs' == MadeDirs(dirs, StateDir)
    ensures entries' == Written(Written(entries + Missing(StateDir, dirs), files, SlicePath(name)), files, IndexPath)
    ensures SlicePath(name) in files' && IndexPath in files'
    ensures SameBut(files, files', SlicePath(name), IndexPath)
  {
    var p := SlicePath(name);
    Renderable(files, dirs, env, name);
    SliceNotIndex(name);
    SliceNotTemplate(env, name, "state.ts.mustache");
    var f1 := RenderFiles(files, env, SliceTemplate(env), p, SliceView(name, Capitalize(name)));
    var e1 := RenderEntries(files, dirs, entries, StateDir, p);
    Rebuilt(f1, MadeDirs(dirs, StateDir), e1, files', dirs', entries', r, env);
    SameButUpdates(files, p, f1[p], IndexPath, IndexCode(f1, e1, env));
  }

  /** The slice of a slash-free name can be written once src/state is made
      when it is not made a directory. */
  lemma Renderable(files: map<Path, string>, dirs: set<Path>, env: Env, name: string)
    requires NoFileOn(files, StateDir) && SliceTemplate(env) in files
    requires NoSlash(name) && SlicePath(name) !in MadeDirs(dirs, StateDir)
    ensures CanRender(files, dirs, StateDir, SliceTemplate(env), SlicePath(name))
  {
    SliceInStateDir(name);
    MadeHasDir(dirs, StateDir);
    assert Parent(SlicePath(name)) == StateDir;
  }

  /** A rebuild whose conditions hold writes the index. */
  lemma Rebuilt(files: map<Path, string>, dirs: set<Path>, entries: seq<Path>,
                files': map<Path, string>, dirs': set<Path>, entries': seq<Path>, r: Outcome, env: Env)
    requires IndexRebuilt(files, dirs, entries, files', dirs', entries', r, env)
    requires IsDirIn(dirs, StateDir) && IndexTemplate(env) in files && IndexPath !in dirs
    ensures r.Ok? && dirs' == dirs && entries' == Written(entries, files, IndexPath)
    ensures files' == files[IndexPath := IndexCode(files, entries, env)]
  {
  }

  /** `state remove name` for a slice that is a file, with src/state a
      directory, the index template present and the index no directory:
      it succeeds and renders the index from the listing without the
      slice. */
  lemma RemoveStep(files: map<Path, string>, dirs: set<Path>, entries: seq<Path>,
                   files': map<Path, string>, dirs': set<Path>, entries': seq<Path>,
                   r: Outcome, env: Env, name: string)
    requires SlicePath(name) in files && IsDirIn(dirs, StateDir)
    requires IndexTemplate(env) in files && IndexPath !in dirs
    requires SliceRemoved(files, dirs, entries, files', dirs', entries', r, env, name)
    ensures SlicePath(name) !in files' && SameBut(files, files', SlicePath(name), IndexPath)
    ensures r.Ok? && IndexPath in files'
    ensures files'[IndexPath]
            == env.render(files[IndexTemplate(env)],
                          IndexView(Slices(Children(Without(entries, SlicePath(name)), StateDir))))
  {
    SliceNotTemplate(env, name, "state.ts.mustache");
    SliceNotIndex(name);
  }

  /** The names of the session are plain: no '/', no line terminator.
      Facts about two literals only, kept apart so that the session
      methods, generic in the names, do not carry the literals. */
  lemma SessionNames()
    ensures NoSlash("cart") && NoSlash("user") && NoTerminator("user")
    ensures SliceFile("cart") != SliceFile("user")
  {
    forall i | 0 <= i < 4
      ensures "cart"[i] != '/' && "user"[i] != '/' && !LineTerminator("user"[i])
    {
      assert "cart"[i] in "cart" && "user"[i] in "user";
    }
    assert SliceFile("cart")[0] != SliceFile("user")[0];
  }

  /** The slices the index lists after `add a`, `add b`, `remove a` on a
      state directory that listed nothing: `b` alone. */
  lemma SessionListing(start: seq<Path>, a: string, b: string)
    requires Children(start, StateDir) == [] && NoTerminator(b)
    requires SliceFile(a) != SliceFile(b) && SliceFile(a) != "index.ts" && SliceFile(b) != "index.ts"
    ensures var pa, pb := StateDir + [SliceFile(a)], StateDir + [SliceFile(b)];
            Slices(Children(Without(start + [pa] + [IndexPath] + [pb], pa), StateDir)) == [b]
  {
    var c, u := SliceFile(a), SliceFile(b);
    var pa, pb := StateDir + [c], StateDir + [u];
    var e1 := start + [pa];
    var e2 := e1 + [IndexPath];
    var e3 := e2 + [pb];
    assert IndexPath == StateDir + ["index.ts"];
    ListedLast(start, c);
    ListedLast(e1, "index.ts");
    ListedLast(e2, u);
    assert Children(e3, StateDir) == [c, "index.ts", u];
    ChildrenWithout(e3, pa, StateDir);
    assert Children(Without(e3, pa), StateDir) == Drop([c, "index.ts", u], c);
    DropAppend([], c, c);
    assert Drop([c], c) == [] by { assert [] + [c] == [c]; }
    DropAppend([c], "index.ts", c);
    assert Drop([c, "index.ts"], c) == ["index.ts"] by { assert [c] + ["index.ts"] == [c, "index.ts"]; }
    DropAppend([c, "index.ts"], u, c);
    assert Drop([c, "index.ts", u], c) == ["index.ts", u] by { assert [c, "index.ts"] + [u] == [c, "index.ts", u]; }
    SlicesAppend(["index.ts"], [u]);
    IndexFileIgnored("index.ts");
    RoundTrip(b);
    assert Slices([u]) == Slices([]) + [Capture(u).value];
    assert ["index.ts"] + [u] == ["index.ts", u];
  }

  /** What an `add` appends to the listing: the directories made, then the
      slice and the index where each is new. */
  lemma AddListing(entries: seq<Path>, made: seq<Path>, files: map<Path, string>, p: Path)
    ensures p !in files && IndexPath !in files ==>
              Written(Written(entries + made, files, p), files, IndexPath) == entries + made + [p] + [IndexPath]
    ensures p !in files && IndexPath in files && made == [] ==>
              Written(Written(entries + made, files, p), files, IndexPath) == entries + [p]
  {
    assert entries + [] == entries;
  }

  /** `reactor state add name` in a valid location: what the command
      promises for `add`. */
  method AddCommand(fs: Fs, env: Env, name: string) returns (r: Outcome)
    requires fs.Valid() && LocationValid(fs.files, env)
    modifies fs
    ensures fs.Valid()
    ensures SliceAdded(old(fs.files), old(fs.dirs), old(fs.entries), fs.files, fs.dirs, fs.entries, r, env, name)
  {
    r := StateCommand(fs, env, "add", name);
  }

  /** `reactor state add name` under the conditions of `AddStep`. */
  method SessionAdd(fs: Fs, env: Env, name: string) returns (r: Outcome)
    requires fs.Valid() && LocationValid(fs.files, env)
    requires fs.NoFileOnPath(StateDir) && SliceTemplate(env) in fs.files && IndexTemplate(env) in fs.files
    requires NoSlash(name) && SlicePath(name) !in fs.dirs && IndexPath !in fs.dirs
    modifies fs
    ensures fs.Valid() && LocationValid(fs.files, env)
    ensures r.Ok? && fs.dirs == MadeDirs(old(fs.dirs), StateDir) && IndexPath !in fs.dirs
    // the first `add` lists src/state's new directories, the slice and the index; a later one the slice alone
    ensures SlicePath(name) !in old(fs.files) && IndexPath !in old(fs.files) ==>
              fs.entries == old(fs.entries) + Missing(StateDir, old(fs.dirs)) + [SlicePath(name)] + [IndexPath]
    ensures SlicePath(name) !in old(fs.files) && IndexPath in old(fs.files) && Missing(StateDir, old(fs.dirs)) == [] ==>
              fs.entries == old(fs.entries) + [SlicePath(name)]
    ensures SlicePath(name) in fs.files && IndexPath in fs.files
    ensures SameBut(old(fs.files), fs.files, SlicePath(name), IndexPath)
    // what a further `add` needs
    ensures fs.IsDir(StateDir) && fs.NoFileOnPath(StateDir) && Missing(StateDir, fs.dirs) == []
    ensures SliceTemplate(env) in fs.files && IndexTemplate(env) in fs.files
    ensures fs.files[IndexTemplate(env)] == old(fs.files)[IndexTemplate(env)]
  {
    ghost var files := fs.files;
    SliceInStateDir(name);
    MadeAbove(fs.dirs, StateDir, SlicePath(name));
    MadeAbove(fs.dirs, StateDir, IndexPath);
    r := AddCommand(fs, env, name);
    AddStep(old(fs.files), old(fs.dirs), old(fs.entries), fs.files, fs.dirs, fs.entries, r, env, name);
    AddListing(old(fs.entries), Missing(StateDir, old(fs.dirs)), files, SlicePath(name));
    SliceNotIndex(name);
    LocationKept(files, fs.files, env);
    AddedState(files, old(fs.dirs), fs.files, fs.dirs, env, name);
  }

  /** After an `add` src/state is a directory and the templates are as they
      were. */
  lemma AddedState(files: map<Path, string>, dirs: set<Path>, files': map<Path, string>, dirs': set<Path>,
                   env: Env, name: string)
    requires Tree(files', dirs') && dirs' == MadeDirs(dirs, StateDir)
    requires SliceTemplate(env) in files && IndexTemplate(env) in files
    requires SlicePath(name) in files' && IndexPath in files'
    requires SameBut(files, files', SlicePath(name), IndexPath)
    ensures IsDirIn(dirs', StateDir) && NoFileOn(files', StateDir)
    ensures Missing(StateDir, dirs') == []
    ensures SliceTemplate(env) in files' && files'[IndexTemplate(env)] == files[IndexTemplate(env)]
  {
    SliceNotTemplate(env, name, "state.ts.mustache");
    IndexTemplateApart(env);
    MadeHasDir(dirs, StateDir);
    MadeDir(files', dirs', StateDir);
  }

  /** Once `d` is a directory, making it again makes nothing, and no file
      lies on the way to it. */
  lemma MadeDir(files: map<Path, string>, dirs: set<Path>, d: Path)
    requires Tree(files, dirs) && IsDirIn(dirs, d)
    ensures Missing(d, dirs) == [] && MadeDirs(dirs, d) == dirs && NoFileOn(files, d)
  {
    NothingMissing(files, dirs, d);
    assert d[..|d|] == d;
  }

  /** The slices the index lists after `add name` then `remove name`,
      starting from a listing with nothing in src/state: none. */
  lemma AddRemoveListing(start: seq<Path>, f: string)
    requires Children(start, StateDir) == [] && f != "index.ts"
    ensures var p := StateDir + [f];
            Slices(Children(Without(start + [p] + [IndexPath], p), StateDir)) == []
  {
    var p := StateDir + [f];
    var e1 := start + [p];
    var e2 := e1 + [IndexPath];
    assert IndexPath == StateDir + ["index.ts"];
    ListedLast(start, f);
    ListedLast(e1, "index.ts");
    assert Children(e2, StateDir) == [f, "index.ts"];
    ChildrenWithout(e2, p, StateDir);
    DropAppend([], f, f);
    assert Drop([f], f) == [] by { assert [] + [f] == [f]; }
    DropAppend([f], "index.ts", f);
    assert Drop([f, "index.ts"], f) == ["index.ts"] by { assert [f] + ["index.ts"] == [f, "index.ts"]; }
    IndexFileIgnored("index.ts");
  }

  /** `reactor state remove name` under the conditions of `RemoveStep`. */
  method SessionRemove(fs: Fs, env: Env, name: string) returns (r: Outcome)
    requires fs.Valid() && LocationValid(fs.files, env)
    requires SlicePath(name) in fs.files && fs.IsDir(StateDir)
    requires IndexTemplate(env) in fs.files && IndexPath !in fs.dirs
    modifies fs
    ensures r.Ok? && IndexPath in fs.files
    ensures SlicePath(name) !in fs.files && SameBut(old(fs.files), fs.files, SlicePath(name), IndexPath)
    ensures fs.files[IndexPath]
            == env.render(old(fs.files)[IndexTemplate(env)],
                          IndexView(Slices(Children(Without(old(fs.entries), SlicePath(name)), StateDir))))
  {
    r := StateCommand(fs, env, "remove", name);
    RemoveStep(old(fs.files), old(fs.dirs), old(fs.entries), fs.files, fs.dirs, fs.entries, r, env, name);
  }

  /** `state add a` then `state add b`, for two different slice names, in a
      project without src/state: both succeed, and src/state lists slice
      `a`, the index and slice `b`, in that order, after what was made. */
  method AddTwo(fs: Fs, env: Env, a: string, b: string) returns (r1: Outcome, r2: Outcome)
    requires fs.Valid() && LocationValid(fs.files, env)
    requires SliceTemplate(env) in fs.files && IndexTemplate(env) in fs.files
    requires fs.NoFileOnPath(StateDir) && !fs.IsDir(StateDir)
    requires NoSlash(a) && NoSlash(b) && SliceFile(a) != SliceFile(b)
    modifies fs
    ensures fs.Valid() && LocationValid(fs.files, env) && r1.Ok? && r2.Ok?
    ensures fs.entries == old(fs.entries) + Missing(StateDir, old(fs.dirs))
                          + [SlicePath(a)] + [IndexPath] + [SlicePath(b)]
    ensures fs.IsDir(StateDir) && IndexPath !in fs.dirs && SlicePath(a) in fs.files && SlicePath(b) in fs.files
    ensures IndexTemplate(env) in fs.files && fs.files[IndexTemplate(env)] == old(fs.files)[IndexTemplate(env)]
  {
    ghost var f0, d0, e0 := fs.files, fs.dirs, fs.entries;
    FreshStateDir(f0, d0, e0);
    FreshSlice(f0, d0, a);
    FreshSlice(f0, d0, b);
    ghost var pa, pb := SlicePath(a), SlicePath(b);
    assert pa != pb by { assert pa[2] != pb[2]; }
    SliceNotIndex(b);

    r1 := SessionAdd(fs, env, a);
    SameButOther(f0, fs.files, pa, IndexPath, pb);
    r2 := SessionAdd(fs, env, b);
  }

  /** `state add name` then `state remove name` in a project without
      src/state: both succeed, and the index exports no slice. */
  method AddRemove(fs: Fs, env: Env, name: string) returns (r1: Outcome, r2: Outcome)
    requires fs.Valid() && LocationValid(fs.files, env)
    requires SliceTemplate(env) in fs.files && IndexTemplate(env) in fs.files
    requires fs.NoFileOnPath(StateDir) && !fs.IsDir(StateDir) && NoSlash(name)
    modifies fs
    ensures r1.Ok? && r2.Ok? && IndexPath in fs.files
    ensures fs.files[IndexPath] == env.render(old(fs.files)[IndexTemplate(env)], IndexView([]))
  {
    ghost var start := fs.entries + Missing(StateDir, fs.dirs);
    FreshStateDir(fs.files, fs.dirs, fs.entries);
    FreshSlice(fs.files, fs.dirs, name);
    r1 := SessionAdd(fs, env, name);
    SliceNotIndex(name);
    r2 := SessionRemove(fs, env, name);
    AddRemoveListing(start, SliceFile(name));
  }

  /** `state add a`, `state add b`, `state remove a` in a project without
      src/state, for two plain names: every command succeeds, slice `a` is
      gone, slice `b` stays, and the index is the template rendered with
      `b` alone. */
  method AddAddRemove(fs: Fs, env: Env, a: string, b: string) returns (r1: Outcome, r2: Outcome, r3: Outcome)
    requires fs.Valid() && LocationValid(fs.files, env)
    requires SliceTemplate(env) in fs.files && IndexTemplate(env) in fs.files
    requires fs.NoFileOnPath(StateDir) && !fs.IsDir(StateDir)
    requires NoSlash(a) && NoSlash(b) && NoTerminator(b) && SliceFile(a) != SliceFile(b)
    modifies fs
    ensures r1.Ok? && r2.Ok? && r3.Ok? && IndexPath in fs.files
    ensures SlicePath(a) !in fs.files && SlicePath(b) in fs.files
    ensures fs.files[IndexPath] == env.render(old(fs.files)[IndexTemplate(env)], IndexView([b]))
  {
    ghost var start := fs.entries + Missing(StateDir, fs.dirs);
    FreshStateDir(fs.files, fs.dirs, fs.entries);
    SessionPaths(a, b);
    r1, r2 := AddTwo(fs, env, a, b);
    ghost var added := fs.files;
    r3 := SessionRemove(fs, env, a);
    SessionListing(start, a, b);
    SameButOther(added, fs.files, SlicePath(a), IndexPath, SlicePath(b));
  }

  /** Two plain names with different slice files give two different files
      directly in src/state, neither of them the index. */
  lemma SessionPaths(a: string, b: string)
    requires NoSlash(a) && NoSlash(b) && SliceFile(a) != SliceFile(b)
    ensures SlicePath(a) == StateDir + [SliceFile(a)] && SlicePath(b) == StateDir + [SliceFile(b)]
    ensures SlicePath(a) != SlicePath(b) && SlicePath(b) != IndexPath
    ensures SliceFile(a) != "index.ts" && SliceFile(b) != "index.ts"
  {
    SliceInStateDir(a);
    SliceInStateDir(b);
    SliceNotIndex(a);
    SliceNotIndex(b);
    assert SlicePath(a)[2] != SlicePath(b)[2];
    assert IndexPath == StateDir + ["index.ts"];
    assert SlicePath(a)[2] != IndexPath[2];
    assert SlicePath(b)[2] != IndexPath[2];
  }

  /** `state add cart`, `state add user`, `state remove cart` in a project
      without src/state: every command succeeds, the cart slice is gone,
      the user slice stays, and the index is the template rendered with
      "user" alone. */
  method StateSession(fs: Fs, env: Env) returns (r1: Outcome, r2: Outcome, r3: Outcome)
    requires fs.Valid() && LocationValid(fs.files, env)
    requires SliceTemplate(env) in fs.files && IndexTemplate(env) in fs.files
    requires fs.NoFileOnPath(StateDir) && !fs.IsDir(StateDir)
    modifies fs
    ensures r1.Ok? && r2.Ok? && r3.Ok? && IndexPath in fs.files
    ensures SlicePath("cart") !in fs.files && SlicePath("user") in fs.files
    ensures fs.files[IndexPath] == env.render(old(fs.files)[IndexTemplate(env)], IndexView(["user"]))
  {
    SessionNames();
    r1, r2, r3 := AddAddRemove(fs, env, "cart", "user");
  }

  // ---- the component command ----

  /** `reactor component <verb> <name>`: adds or removes one component file. */
  method ComponentCommand(fs: Fs, env: Env, verb: string, name: string) returns (r: Outcome)
    requires fs.Valid()
    modifies fs
    ensures fs.Valid()
    ensures !old(LocationValid(fs.files, env)) ==> r.Fail? && unchanged(fs)
    // the component command reports an unknown verb with the state command's words
    ensures old(LocationValid(fs.files, env)) && verb != "add" && verb != "update" && !IsRemoveVerb(verb)
            ==> r == Fail("unknown state verb '" + verb + "'") && unchanged(fs)
    ensures old(LocationValid(fs.files, env)) && verb == "add" ==>
              Rendered(old(fs.files), old(fs.dirs), old(fs.entries), fs.files, fs.dirs, fs.entries, r, env,
                       ComponentsDir, ComponentTemplate(env), ComponentPath(name), ComponentView(name))
    ensures old(LocationValid(fs.files, env)) && IsRemoveVerb(verb)
            ==> (r.Ok? <==> ComponentPath(name) in old(fs.files))
    ensures old(LocationValid(fs.files, env)) && IsRemoveVerb(verb) && !old(fs.Exists(ComponentPath(name)))
            ==> r == Fail(Text(ComponentPath(name)) + " not found")
    ensures r.Ok? ==> old(LocationValid(fs.files, env))
    ensures r.Ok? && IsRemoveVerb(verb) ==>
              fs.files == old(fs.files) - {ComponentPath(name)} && fs.dirs == old(fs.dirs)
              && fs.entries == Without(old(fs.entries), ComponentPath(name))
    ensures r.Fail? && IsRemoveVerb(verb) ==> unchanged(fs)
    ensures old(LocationValid(fs.files, env)) && verb == "update" ==> r.Ok? && unchanged(fs)
  {
    r := ValidateLocation(fs, env);
    if r.Fail? {
      return;
    }
    if verb == "add" {
      r := AddComponent(fs, env, name);
    } else if IsRemoveVerb(verb) {
      r := RemoveComponent(fs, name);
    } else if verb != "update" {
      return Fail("unknown state verb '" + verb + "'");
    }
  }

  /** The `add` branch of the component command (lines 109-118). */
  method AddComponent(fs: Fs, env: Env, name: string) returns (r: Outcome)
    requires fs.Valid()
    modifies fs
    ensures fs.Valid()
    ensures Rendered(old(fs.files), old(fs.dirs), old(fs.entries), fs.files, fs.dirs, fs.entries, r, env,
                     ComponentsDir, ComponentTemplate(env), ComponentPath(name), ComponentView(name))
    ensures r.Ok? ==> fs.IsDir(ComponentsDir)
  {
    var componentPath := ComponentPath(name);
    r := EnsureFolderExists(fs, ComponentsDir);
    if r.Fail? {
      return;
    }
    var template := fs.ReadFile(ComponentTemplate(env));
    if template.Error? {
      return Fail(template.msg);
    }
    var code := env.render(template.value, ComponentView(name));
    r := fs.WriteFile(componentPath, code);
  }

  /** The `remove` branch of the component command (lines 120-130). */
  method RemoveComponent(fs: Fs, name: string) returns (r: Outcome)
    requires fs.Valid()
    modifies fs
    ensures fs.Valid() && fs.dirs == old(fs.dirs)
    ensures r.Ok? <==> ComponentPath(name) in old(fs.files)
    ensures !old(fs.Exists(ComponentPath(name))) ==> r == Fail(Text(ComponentPath(name)) + " not found")
    ensures r.Ok? ==> fs.files == old(fs.files) - {ComponentPath(name)}
                      && fs.entries == Without(old(fs.entries), ComponentPath(name))
    ensures r.Fail? ==> unchanged(fs)
  {
    var componentPath := ComponentPath(name);
    if !fs.Exists(componentPath) {
      return Fail(Text(componentPath) + " not found");
    }
    r := fs.Unlink(componentPath);
  }
}
