/** The `build` and `debug` commands: the packaged application's
    manifest, and the order in which a build checks, copies, compiles,
    writes and packages.

    npm, the Electron module resolver, webpack and the spawned processes
    are outside the model; a `Tools` value gives what each of them reports.
    Line numbers in the comments of this module are those of
    src/reactor.ts. */
module Packaging {
  import opened Results
  import opened Paths
  import opened Json
  import opened FileSystem
  import opened Reactor

  /** What the webpack compiler reports: a failure of the run itself, or
      the statistics of a finished compilation. */
  datatype CompileResult =
    | Crashed(msg: string)
    | Compiled(errors: seq<string>, warnings: seq<string>)

  datatype Tools = Tools(
    npmLoad: Outcome,                 // `npm.load()`
    electronDir: Result<Path>,        // the directory of the resolved `electron` module
    compile: CompileResult,           // `webpack(config, callback)`
    exec: seq<string> -> Outcome)     // `npm exec` of an argument vector

  const BuildFolder: Path := ["build", "prod"]
  const BuildMain: Path := ["build", "prod", "main.js"]
  const ManifestPath: Path := ["build", "prod", "package.json"]

  /** The keys of the packaged application's package.json, in order. */
  const ManifestKeys: seq<string> := ["name", "productName", "version", "description", "author", "license", "main"]

  /** The properties of the packaged application's package.json, taken
      from the project's: the name, the product name (the name when it has
      none), the version, description, author and license, and "main.js" as
      the entry point. */
  function ManifestProps(pkg: Json): (props: seq<(string, Option<Json>)>)
    requires !pkg.JNull?
    ensures |props| == |ManifestKeys|
    ensures forall j :: 0 <= j < |props| ==> props[j].0 == ManifestKeys[j]
  {
    [("name", Get(pkg, "name")),
     ("productName", Or(Get(pkg, "productName"), Get(pkg, "name"))),
     ("version", Get(pkg, "version")),
     ("description", Get(pkg, "description")),
     ("author", Get(pkg, "author")),
     ("license", Get(pkg, "license")),
     ("main", Some(JStr("main.js")))]
  }

  /** The manifest as JSON.stringify writes it: a property whose value is
      undefined is left out. */
  function NewManifest(pkg: Json): (m: Json)
    requires !pkg.JNull?
    ensures m.JObj?
  {
    ObjectOf(ManifestProps(pkg))
  }

  lemma ManifestKeysDistinct()
    ensures Distinct(ManifestKeys)
  {
  }

  /** The manifest's property `ManifestKeys[i]` has the i-th value given. */
  lemma ManifestAt(pkg: Json, i: nat)
    requires !pkg.JNull? && i < |ManifestKeys|
    ensures Lookup(NewManifest(pkg).members, ManifestKeys[i]) == ManifestProps(pkg)[i].1
  {
    ManifestKeysDistinct();
    LookupObjectOf(ManifestProps(pkg), ManifestKeys[i]);
    LastValueAt(ManifestProps(pkg), i, ManifestKeys[i]);
  }

  /** The name, version, description, author and license are the project's
      (absent when the project has none). */
  lemma ManifestCopies(pkg: Json, key: string)
    requires !pkg.JNull?
    requires key == "name" || key == "version" || key == "description" || key == "author" || key == "license"
    ensures Lookup(NewManifest(pkg).members, key) == Get(pkg, key)
  {
    var i := if key == "name" then 0 else if key == "version" then 2 else if key == "description" then 3
             else if key == "author" then 4 else 5;
    ManifestAt(pkg, i);
  }

  /** The product name is the project's when it is truthy, and the name
      otherwise. */
  lemma ManifestProductName(pkg: Json)
    requires !pkg.JNull?
    ensures Lookup(NewManifest(pkg).members, "productName")
            == if Truthy(Get(pkg, "productName")) then Get(pkg, "productName") else Get(pkg, "name")
  {
    ManifestAt(pkg, 1);
  }

  /** The entry point is always "main.js". */
  lemma ManifestMain(pkg: Json)
    requires !pkg.JNull?
    ensures Lookup(NewManifest(pkg).members, "main") == Some(JStr("main.js"))
  {
    ManifestAt(pkg, 6);
  }

  /** Nothing else of the project's package.json is copied. */
  lemma ManifestNothingElse(pkg: Json, key: string)
    requires !pkg.JNull? && key !in ManifestKeys
    ensures Lookup(NewManifest(pkg).members, key).None?
  {
    LookupObjectOf(ManifestProps(pkg), key);
    LastValueAbsent(ManifestProps(pkg), key);
  }

  /** `${v}`: the text a template literal makes of a property value. */
  function TemplateText(v: Option<Json>, env: Env): string
  {
    match v
    case None => "undefined"
    case Some(JStr(s)) => s
    case Some(j) => env.text(j)
  }

  /** The command that packages the build folder. */
  function PackagerArgs(electronVersion: string, args: seq<string>): (argv: seq<string>)
    ensures |argv| == 5 + |args| && argv[5..] == args
    ensures argv[0] == "electron-packager" && argv[1] == "build/prod"
    ensures argv[2] == "--electronVersion=" + electronVersion
    ensures argv[3] == "--out=dist" && argv[4] == "--overwrite"
  {
    assert Text(BuildFolder) == "build/prod";
    ["electron-packager", Text(BuildFolder), "--electronVersion=" + electronVersion, "--out=dist", "--overwrite"] + args
  }

  /** The package.json of the resolved `electron` module. */
  function ElectronManifest(dir: Path): Path
  {
    Join(dir, "package.json")
  }

  /** Electron resolves, and its package.json parses to a value other
      than null. */
  predicate ElectronReadable(files: map<Path, string>, env: Env, tools: Tools)
  {
    tools.electronDir.Value? && ElectronManifest(tools.electronDir.value) in files
    && var j := env.parse(files[ElectronManifest(tools.electronDir.value)]);
       j.Some? && !j.value.JNull?
  }

  /** webpack finished without errors; warnings do not count. */
  predicate CleanCompile(c: CompileResult)
  {
    c.Compiled? && c.errors == []
  }

  /** What lines 148-150 need: nothing on the way to the build folder is a
      file, the CLI's `main.js` is a file other than the link, and the link
      is not a directory. */
  predicate CanLinkMain(fs: Fs, env: Env)
    reads fs
  {
    fs.NoFileOnPath(BuildFolder) && Join(env.dist, "main.js") in fs.files
    && Join(env.dist, "main.js") != BuildMain && BuildMain !in fs.dirs
  }

  /** The listing after the build folder is made and the link is replaced. */
  function LinkedEntries(files: map<Path, string>, dirs: set<Path>, entries: seq<Path>): seq<Path>
  {
    var made := entries + Missing(BuildFolder, dirs);
    (if BuildMain in files then Without(made, BuildMain) else made) + [BuildMain]
  }

  /** The listing after a finished build: the link, then the manifest when
      it is new. */
  function BuiltEntries(files: map<Path, string>, dirs: set<Path>, entries: seq<Path>): seq<Path>
  {
    var linked := LinkedEntries(files, dirs, entries);
    if ManifestPath in files then linked else linked + [ManifestPath]
  }

  /** The CLI's main process script, the source of the link. */
  function MainScript(env: Env): Path
  {
    Join(env.dist, "main.js")
  }

  /** The state after a successful link (lines 148-150): the build folder's
      missing directories are made, and `build/prod/main.js` is a link to
      the CLI's main script, listed last. */
  ghost predicate Linked(files: map<Path, string>, dirs: set<Path>, entries: seq<Path>,
                         files': map<Path, string>, dirs': set<Path>, entries': seq<Path>, env: Env)
  {
    && MainScript(env) in files
    && files' == files[BuildMain := files[MainScript(env)]]
    && dirs' == MadeDirs(dirs, BuildFolder)
    && entries' == LinkedEntries(files, dirs, entries)
  }

  /** The state after a failed link: a file on the way to the build folder
      stops `mkdirSync` before anything changes; otherwise the folder is
      made, and an old link is unlinked (line 250) whenever the main script
      exists, whatever stops the new link. */
  ghost predicate LinkFailed(files: map<Path, string>, dirs: set<Path>, entries: seq<Path>,
                             files': map<Path, string>, dirs': set<Path>, entries': seq<Path>, env: Env)
  {
    if !NoFileOn(files, BuildFolder) then files' == files && dirs' == dirs && entries' == entries
    else
      var made := entries + Missing(BuildFolder, dirs);
      && dirs' == MadeDirs(dirs, BuildFolder)
      && if BuildMain in files && (MainScript(env) in files || IsDirIn(dirs, MainScript(env)))
         then files' == files - {BuildMain} && entries' == Without(made, BuildMain)
         else files' == files && entries' == made
  }

  /** Making the build folder does not make the main script a directory:
      its last segment is `main.js`, and the folders made are `build` and
      `build/prod`. */
  lemma MainNotMade(dirs: set<Path>, env: Env)
    ensures IsDirIn(MadeDirs(dirs, BuildFolder), MainScript(env)) <==> IsDirIn(dirs, MainScript(env))
  {
    FileName("main.js");
    LeafOfJoin(env.dist, "main.js");
  }

  /** Lines 148-150: the build folder exists and holds a fresh link to the
      CLI's main process script. Only that link changes. */
  method LinkMain(fs: Fs, env: Env) returns (r: Outcome)
    requires fs.Valid()
    modifies fs
    ensures fs.Valid()
    ensures fs.files - {BuildMain} == old(fs.files) - {BuildMain}
    ensures r.Ok? <==> old(CanLinkMain(fs, env))
    ensures r.Ok? ==> fs.IsDir(BuildFolder) && Join(env.dist, "main.js") in old(fs.files)
                      && fs.files == old(fs.files)[BuildMain := old(fs.files)[Join(env.dist, "main.js")]]
    ensures r.Ok? ==> fs.entries == LinkedEntries(old(fs.files), old(fs.dirs), old(fs.entries))
    ensures old(fs.NoFileOnPath(BuildFolder)) ==> fs.dirs == MadeDirs(old(fs.dirs), BuildFolder)
    ensures !old(fs.NoFileOnPath(BuildFolder)) ==> r.Fail? && unchanged(fs)
    ensures r.Ok? ==> Linked(old(fs.files), old(fs.dirs), old(fs.entries), fs.files, fs.dirs, fs.entries, env)
    ensures r.Fail? ==> LinkFailed(old(fs.files), old(fs.dirs), old(fs.entries), fs.files, fs.dirs, fs.entries, env)
  {
    r := EnsureFolderExists(fs, BuildFolder);
    if r.Fail? {
      return;
    }
    MainNotMade(old(fs.dirs), env);
    // the link is path.join(buildFolder, 'main.js'), longer than any folder made
    assert Parent(BuildMain) == BuildFolder;
    assert BuildMain !in fs.dirs <==> BuildMain !in old(fs.dirs);
    assert CanUpdate(fs, Join(env.dist, "main.js"), BuildMain) <==> old(CanLinkMain(fs, env));
    r := UpdateFile(fs, Join(env.dist, "main.js"), BuildMain);
  }

  /** Lines 154-156: the version of Electron, from the `version` property
      of its package.json. */
  method ReadElectronVersion(fs: Fs, env: Env, tools: Tools) returns (v: Result<string>)
    requires fs.Valid()
    ensures tools.electronDir.Error? ==> v == Error(tools.electronDir.msg)
    ensures v.Value? <==> ElectronReadable(fs.files, env, tools)
    ensures v.Value? ==> v.value == TemplateText(Get(env.parse(fs.files[ElectronManifest(tools.electronDir.value)]).value,
                                                     "version"), env)
  {
    if tools.electronDir.Error? {
      return Error(tools.electronDir.msg);
    }
    var text := fs.ReadFile(ElectronManifest(tools.electronDir.value));
    if text.Error? {
      return Error(text.msg);
    }
    var json := env.parse(text.value);
    if json.None? {
      return Error("SyntaxError");
    }
    if json.value.JNull? {
      return Error("TypeError");
    }
    v := Value(TemplateText(Get(json.value, "version"), env));
  }

  /** Lines 187-197: reads the project's package.json again and writes the
      application's manifest into the build folder. */
  method WriteManifest(fs: Fs, env: Env) returns (r: Outcome)
    requires fs.Valid()
    modifies fs
    ensures fs.Valid()
    ensures r.Ok? <==> PackageJson in old(fs.files) && var j := env.parse(old(fs.files)[PackageJson]);
                       j.Some? && !j.value.JNull? && old(fs.CanWrite(ManifestPath))
    ensures r.Ok? ==> fs.files == old(fs.files)[ManifestPath :=
                        env.stringify(NewManifest(env.parse(old(fs.files)[PackageJson]).value))]
    ensures r.Ok? ==> fs.entries == if ManifestPath in old(fs.files) then old(fs.entries)
                                    else old(fs.entries) + [ManifestPath]
    ensures r.Fail? ==> unchanged(fs)
    ensures fs.dirs == old(fs.dirs)
  {
    var text := fs.ReadFile(PackageJson);
    if text.Error? {
      return Fail(text.msg);
    }
    var pkg := env.parse(text.value);
    if pkg.None? {
      return Fail("SyntaxError");
    }
    if pkg.value.JNull? {
      return Fail("TypeError");
    }
    var manifest := NewManifest(pkg.value);
    r := fs.WriteFile(ManifestPath, env.stringify(manifest));
  }

  /** `reactor build [args]`: checks the project, links the main script,
      compiles, writes the manifest and runs the packager, stopping at the
      first failure. `invoked` lists the commands run. */
  method Build(fs: Fs, env: Env, tools: Tools, args: seq<string>) returns (r: Outcome, invoked: seq<seq<string>>)
    requires fs.Valid()
    modifies fs
    ensures fs.Valid()
    ensures |invoked| <= 1 && (r.Ok? ==> invoked != [])
    ensures tools.npmLoad.Fail? ==> r == tools.npmLoad && invoked == [] && unchanged(fs)
    ensures !old(LocationValid(fs.files, env)) ==> r.Fail? && invoked == [] && unchanged(fs)
    // the packager runs exactly when every step before it succeeds; warnings do not stop it
    ensures invoked != [] <==> tools.npmLoad.Ok? && old(LocationValid(fs.files, env)) && old(CanLinkMain(fs, env))
                               && ElectronReadable(old(fs.files), env, tools) && CleanCompile(tools.compile)
                               && ManifestPath !in old(fs.dirs)
    // once the project is checked: a failure after the link keeps the linked state, a failed link is all that happened
    ensures tools.npmLoad.Ok? && old(LocationValid(fs.files, env)) && invoked == [] && old(CanLinkMain(fs, env)) ==>
              Linked(old(fs.files), old(fs.dirs), old(fs.entries), fs.files, fs.dirs, fs.entries, env)
    ensures tools.npmLoad.Ok? && old(LocationValid(fs.files, env)) && !old(CanLinkMain(fs, env)) ==>
              r.Fail? && invoked == []
              && LinkFailed(old(fs.files), old(fs.dirs), old(fs.entries), fs.files, fs.dirs, fs.entries, env)
    // nothing is packaged, and no manifest written, unless the compilation is clean
    ensures !CleanCompile(tools.compile) ==>
              r.Fail? && invoked == []
              && (ManifestPath in fs.files <==> ManifestPath in old(fs.files))
              && (ManifestPath in old(fs.files) ==> fs.files[ManifestPath] == old(fs.files)[ManifestPath])
    ensures invoked != [] ==> fs.IsDir(BuildFolder)
    ensures invoked != [] ==> Packaged(old(fs.files), fs.files, env, tools, args, invoked) && r == tools.exec(invoked[0])
    ensures invoked != [] ==> fs.dirs == MadeDirs(old(fs.dirs), BuildFolder)
                              && fs.entries == BuiltEntries(old(fs.files), old(fs.dirs), old(fs.entries))
  {
    if tools.npmLoad.Fail? {
      return tools.npmLoad, [];
    }
    r := ValidateLocation(fs, env);
    if r.Fail? {
      return r, [];
    }
    r, invoked := Package(fs, env, tools, args);
  }

  /** A finished build: the packager got the version from Electron's
      package.json, and the build folder holds the link to the main script
      and the manifest made from the project's package.json. */
  ghost predicate Packaged(before: map<Path, string>, after: map<Path, string>, env: Env, tools: Tools,
                           args: seq<string>, invoked: seq<seq<string>>)
  {
    && tools.electronDir.Value? && ElectronManifest(tools.electronDir.value) in before
    && Join(env.dist, "main.js") in before && Config(before, env).Some? && !Config(before, env).value.JNull?
    && var j := env.parse(before[ElectronManifest(tools.electronDir.value)]);
       && j.Some? && !j.value.JNull?
       && invoked == [PackagerArgs(TemplateText(Get(j.value, "version"), env), args)]
       && after == before[BuildMain := before[Join(env.dist, "main.js")]]
                         [ManifestPath := env.stringify(NewManifest(Config(before, env).value))]
  }

  /** Lines 148-207, once the project is checked. */
  method Package(fs: Fs, env: Env, tools: Tools, args: seq<string>) returns (r: Outcome, invoked: seq<seq<string>>)
    requires fs.Valid() && LocationValid(fs.files, env)
    modifies fs
    ensures fs.Valid()
    ensures |invoked| <= 1 && (r.Ok? ==> invoked != [])
    ensures invoked != [] <==> old(CanLinkMain(fs, env)) && ElectronReadable(old(fs.files), env, tools)
                               && CleanCompile(tools.compile) && ManifestPath !in old(fs.dirs)
    // a failure after the link keeps the linked state; a failed link is all that happened
    ensures invoked == [] && old(CanLinkMain(fs, env)) ==>
              Linked(old(fs.files), old(fs.dirs), old(fs.entries), fs.files, fs.dirs, fs.entries, env)
    ensures !old(CanLinkMain(fs, env)) ==>
              r.Fail? && invoked == []
              && LinkFailed(old(fs.files), old(fs.dirs), old(fs.entries), fs.files, fs.dirs, fs.entries, env)
    ensures !CleanCompile(tools.compile) ==>
              r.Fail? && invoked == []
              && (ManifestPath in fs.files <==> ManifestPath in old(fs.files))
              && (ManifestPath in old(fs.files) ==> fs.files[ManifestPath] == old(fs.files)[ManifestPath])
    ensures invoked != [] ==> fs.IsDir(BuildFolder)
    ensures invoked != [] ==> Packaged(old(fs.files), fs.files, env, tools, args, invoked) && r == tools.exec(invoked[0])
    ensures invoked != [] ==> fs.dirs == MadeDirs(old(fs.dirs), BuildFolder)
                              && fs.entries == BuiltEntries(old(fs.files), old(fs.dirs), old(fs.entries))
  {
    ghost var files, dirs, entries := fs.files, fs.dirs, fs.entries;
    r := LinkMain(fs, env);
    SameElsewhere(fs.files, files, BuildMain, ManifestPath);
    if r.Fail? {
      return r, [];
    }
    assert ManifestPath in fs.dirs <==> ManifestPath in dirs by {
      assert |ManifestPath| > |BuildFolder|;
    }
    r, invoked := PublishLinked(fs, env, tools, args, files, dirs);
  }

  /** Lines 154-207 after the link of lines 148-150, stated in terms of the
      files before the link (`files`) and of whether the manifest was a
      directory (`dirs`). */
  method PublishLinked(fs: Fs, env: Env, tools: Tools, args: seq<string>,
                       ghost files: map<Path, string>, ghost dirs: set<Path>)
      returns (r: Outcome, invoked: seq<seq<string>>)
    requires fs.Valid() && LocationValid(files, env)
    requires Join(env.dist, "main.js") in files
    requires fs.files == files[BuildMain := files[Join(env.dist, "main.js")]]
    requires fs.IsDir(BuildFolder) && (ManifestPath in fs.dirs <==> ManifestPath in dirs)
    modifies fs
    ensures fs.Valid() && fs.dirs == old(fs.dirs)
    ensures |invoked| <= 1 && (r.Ok? ==> invoked != [])
    ensures invoked != [] <==> ElectronReadable(files, env, tools) && CleanCompile(tools.compile)
                               && ManifestPath !in dirs
    // every failure before the packager runs leaves the linked state as it is
    ensures invoked == [] ==> r.Fail? && unchanged(fs)
    ensures invoked != [] ==> Packaged(files, fs.files, env, tools, args, invoked) && r == tools.exec(invoked[0])
    ensures invoked != [] ==> fs.entries == if ManifestPath in files then old(fs.entries)
                                           else old(fs.entries) + [ManifestPath]
  {
    ghost var linked := fs.files;
    LinkKeeps(files, env, tools);
    assert fs.CanWrite(ManifestPath) <==> ManifestPath !in dirs by {
      assert Parent(ManifestPath) == BuildFolder;
    }
    r, invoked := Publish(fs, env, tools, args);
    if invoked != [] {
      PublishedAfterLink(files, linked, fs.files, env, tools, args, invoked);
    }
  }

  /** The link changes neither the project's package.json, nor Electron's,
      nor whether the manifest exists. */
  lemma LinkKeeps(files: map<Path, string>, env: Env, tools: Tools)
    requires Join(env.dist, "main.js") in files
    ensures var linked := files[BuildMain := files[Join(env.dist, "main.js")]];
            && (ManifestPath in linked <==> ManifestPath in files)
            && Config(linked, env) == Config(files, env)
            && (ElectronReadable(linked, env, tools) <==> ElectronReadable(files, env, tools))
  {
    assert ManifestPath != BuildMain && PackageJson != BuildMain;
    if tools.electronDir.Value? {
      FileName("package.json");
      LeafOfJoin(tools.electronDir.value, "package.json");
      assert ElectronManifest(tools.electronDir.value) != BuildMain;
    }
  }

  /** What `Publish` promises about the file system after the link is a
      finished build of the file system before it. */
  lemma PublishedAfterLink(validated: map<Path, string>, linked: map<Path, string>, after: map<Path, string>,
                           env: Env, tools: Tools, args: seq<string>, invoked: seq<seq<string>>)
    requires LocationValid(validated, env) && Join(env.dist, "main.js") in validated
    requires linked == validated[BuildMain := validated[Join(env.dist, "main.js")]]
    requires tools.electronDir.Value? && ElectronManifest(tools.electronDir.value) in linked
    requires var j := env.parse(linked[ElectronManifest(tools.electronDir.value)]);
             && j.Some? && !j.value.JNull?
             && invoked == [PackagerArgs(TemplateText(Get(j.value, "version"), env), args)]
    requires after == linked[ManifestPath := env.stringify(NewManifest(Config(linked, env).value))]
    ensures Packaged(validated, after, env, tools, args, invoked)
  {
    var em := ElectronManifest(tools.electronDir.value);
    FileName("package.json");
    LeafOfJoin(tools.electronDir.value, "package.json");
    assert em != BuildMain;
    assert linked[em] == validated[em];
    assert PackageJson != BuildMain;
    assert linked[PackageJson] == validated[PackageJson];
  }

  /** Lines 154-207: reads the Electron version, compiles, writes the
      manifest and runs the packager. */
  method Publish(fs: Fs, env: Env, tools: Tools, args: seq<string>) returns (r: Outcome, invoked: seq<seq<string>>)
    requires fs.Valid() && LocationValid(fs.files, env)
    modifies fs
    ensures fs.Valid() && fs.dirs == old(fs.dirs)
    ensures |invoked| <= 1 && (r.Ok? ==> invoked != [])
    ensures invoked != [] <==> ElectronReadable(old(fs.files), env, tools) && CleanCompile(tools.compile)
                               && old(fs.CanWrite(ManifestPath))
    // every failure before the packager runs leaves the file system as it is
    ensures invoked == [] ==> r.Fail? && unchanged(fs)
    ensures invoked != [] ==>
              && tools.electronDir.Value? && ElectronManifest(tools.electronDir.value) in old(fs.files)
              && var j := env.parse(old(fs.files)[ElectronManifest(tools.electronDir.value)]);
                 && j.Some? && !j.value.JNull?
                 && invoked == [PackagerArgs(TemplateText(Get(j.value, "version"), env), args)]
                 && r == tools.exec(invoked[0])
    ensures invoked != [] ==>
              fs.files == old(fs.files)[ManifestPath := env.stringify(NewManifest(Config(old(fs.files), env).value))]
    ensures invoked != [] ==> fs.entries == if ManifestPath in old(fs.files) then old(fs.entries)
                                           else old(fs.entries) + [ManifestPath]
  {
    invoked := [];
    var version := ReadElectronVersion(fs, env, tools);
    if version.Error? {
      return Fail(version.msg), [];
    }
    match tools.compile {
      case Crashed(msg) =>
        return Fail(msg), [];
      case Compiled(errors, _) =>
        if errors != [] {
          return Fail("compilation errors"), [];
        }
    }
    r := WriteManifest(fs, env);
    if r.Fail? {
      return;
    }
    var argv := PackagerArgs(version.value, args);
    invoked := [argv];
    r := tools.exec(argv);
  }

  /** `reactor debug [args]`: runs Electron on the development script once
      the project is checked. The file system is left alone. */
  method Debug(fs: Fs, env: Env, tools: Tools, args: seq<string>) returns (r: Outcome, invoked: seq<seq<string>>)
    requires fs.Valid()
    ensures invoked != [] <==> tools.npmLoad.Ok? && LocationValid(fs.files, env)
    ensures invoked == [] ==> r.Fail?
    ensures tools.npmLoad.Fail? ==> r == tools.npmLoad
    ensures invoked != [] ==> invoked == [["electron", Text(Join(env.dist, "main.dev.js"))] + args]
                              && r == tools.exec(invoked[0])
  {
    invoked := [];
    if tools.npmLoad.Fail? {
      return tools.npmLoad, [];
    }
    r := ValidateLocation(fs, env);
    if r.Fail? {
      return;
    }
    var argv := ["electron", Text(Join(env.dist, "main.dev.js"))] + args;
    invoked := [argv];
    r := tools.exec(argv);
  }
}
