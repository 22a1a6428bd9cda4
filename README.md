# reactor: a verified model of the project commands and the build pipeline

`reactor` is a command-line tool that scaffolds and builds an Electron
desktop application written with React and Redux. This project models its
command engine in `src/reactor.ts` and proves properties of that model.

- `reactor state <verb> <name>` adds or removes a Redux *slice* file
  `src/state/<name>Slice.ts`. It then rebuilds the generated index
  `src/state/index.ts` from the slice names found in the directory listing.
- `reactor component <verb> <name>` adds or removes a component file
  `src/components/<name>.tsx`.
- `reactor build [args]` packages the application. In order, it:
  - checks the project;
  - creates `build/prod` and links the CLI's `main.js` into it;
  - reads Electron's version;
  - compiles with webpack;
  - writes a trimmed `package.json` into `build/prod`;
  - runs `electron-packager`.
- `reactor debug [args]` runs Electron on the development script.

Every command that touches the project first runs `validateLocation`. It
requires a `package.json` whose `devDependencies` name the CLI.

The Mustache templates are read from the directory `templates` beside the
directory of the running script (`reactor_tpl`, src/reactor.ts:36); the
CLI's `main.js` and `main.dev.js` are read from the script's directory
itself.

Files:

- `results.dfy` (module `Results`):
  - `Option`, `Result` (the value of a read that can throw), and `Outcome`.
  - `Outcome` is `Ok` or `Fail(msg)`.
  - `Fail` stands for the CLI's `fail` helper (which exits the process) and for an exception thrown by Node.
- `paths.dfy` (module `Paths`):
  - Paths are sequences of segments, relative to the working directory.
  - `Join` models `path.join` with its normalisation.
  - `Text` is the string form Node prints.
- `json.dfy` (module `Json`):
  - The values `JSON.parse` yields.
  - Property access, where a repeated key's last occurrence wins.
  - Truthiness, `||`, and an object literal as `JSON.stringify` sees it (undefined properties dropped).
- `slices.dfy` (module `SliceNames`):
  - The regular expression `/(.*)Slice.ts/` in JavaScript's matching order: leftmost start, a greedy group that backtracks, and `.` not matching line terminators. The model runs it over characters; see "## Left out" for UTF-16.
  - The index's slice list, and `capitalize`.
- `filesystem.dfy` (module `FileSystem`):
  - An object `Fs` with a map of files, a set of directories and the listing order of the entries.
  - Its methods are the synchronous Node calls the CLI makes (`readdirSync`, `readFileSync`, `writeFileSync`, `unlinkSync`, `linkSync`, `mkdirSync` with `recursive`).
  - Each method fails with Node's error code where Node throws and keeps the invariant `Valid` (a tree, each entry listed once).
- `reactor.dfy` (module `Reactor`): `validateLocation`, `ensureFolderExists`, `updateFile`, and the `state` and `component` commands.
- `build.dfy` (module `Packaging`): the `newpkg` manifest, `build` and `debug`.

What lies outside the file system is passed in as values:

- `Env`:
  - the CLI's package name and script directory;
  - `Mustache.render`;
  - `JSON.parse` (`None` when it throws);
  - `JSON.stringify`;
  - `String(v)`.
- `Tools`:
  - `npm.load`;
  - the resolved `electron` directory;
  - webpack's result;
  - `npm exec`.

## Model

| member | source | states |
|---|---|---|
| Paths.Normalize | src/reactor.ts:60 | `path.join`'s normalisation never leaves an empty or "." segment |
| Paths.Join | src/reactor.ts:60 | definition: `path.join(base, s)` is the normalisation of `base` followed by the pieces of `s` split at '/' |
| Paths.Text | src/reactor.ts:76 | definition: the string Node prints for a path, its segments glued with '/' ("." for the empty path) |
| Paths.GlueSplit | src/reactor.ts:242-243 | splitting a string at '/' and gluing the pieces back with '/' gives the string back |
| Paths.SplitAppend | src/reactor.ts:60 | appending text without '/' to a path argument only extends its last piece |
| Paths.NormalizePlain | src/reactor.ts:60 | a path of plain segments is already normal |
| Paths.JoinName | src/reactor.ts:60 | joining a plain name without '/' onto a normal path appends exactly that segment |
| Paths.JoinLeaf | src/reactor.ts:242-243 | the text after the last '/' of the joined argument, when plain, is the joined path's last segment |
| Paths.LeafOfJoin | src/reactor.ts:154 | `path.join(dir, 'package.json')` ends in "package.json" whatever `dir` is |
| Json.Lookup | src/reactor.ts:222 | a property is defined exactly when some member of the object has that key |
| Json.Get | src/reactor.ts:222 | `v[key]` on a value other than null is defined only when `v` is an object |
| Json.Truthy | src/reactor.ts:222 | definition: JavaScript truthiness of a parsed value, undefined being falsy |
| Json.Or | src/reactor.ts:190 | definition: JavaScript's logical or of two values: `a` when truthy, `b` otherwise; `ManifestProductName` states its use |
| Json.ObjectOf | src/reactor.ts:188-197 | the object literal as `JSON.stringify` sees it is always an object; `LookupObjectOf` gives its properties |
| Json.LookupObjectOf | src/reactor.ts:188-197 | a property of the stringified object literal is the last defined value given for that key |
| Json.LastValueAt | src/reactor.ts:188-196 | with distinct keys, a key's value is the one value given for it |
| Json.LastValueAbsent | src/reactor.ts:188-196 | a key the literal does not name is undefined |
| SliceNames.RunEnd | src/reactor.ts:92 | `.*` reaches to the next line terminator and no further |
| SliceNames.Backtrack | src/reactor.ts:92 | the greedy group ends at the LAST place where "Slice", a character and "ts" follow, and none is found when there is none |
| SliceNames.ExecFrom | src/reactor.ts:92 | `exec` trying start positions from `i` on; `ExecFromMatches` says when it matches |
| SliceNames.Capture | src/reactor.ts:92 | `/(.*)Slice.ts/.exec(entry)?.at(1)`; `CaptureMatches`, `CaptureLast` and `RoundTrip` say what it yields |
| SliceNames.ExecFromMatches | src/reactor.ts:92 | from a start position on, the expression matches if and only if "Slice?ts" occurs after it |
| SliceNames.CaptureMatches | src/reactor.ts:92-93 | an entry yields a name if and only if it contains "Slice", a non-terminator character and "ts" |
| SliceNames.CaptureLast | src/reactor.ts:92 | without line terminators the captured name is the whole prefix before the last "Slice?ts" |
| SliceNames.SliceFile | src/reactor.ts:60 | definition: the slice `name` lives in the file `name + "Slice.ts"` |
| SliceNames.RoundTrip | src/reactor.ts:60-92 | the name captured from `<name>Slice.ts` is `name`, for any name without line terminators |
| SliceNames.IndexFileIgnored | src/reactor.ts:92-97 | the index file `index.ts` yields no slice name |
| SliceNames.BacktrackLast | src/reactor.ts:92 | the greedy group ends at the last occurrence up to where `.*` stopped |
| SliceNames.CaptureAt | src/reactor.ts:92 | the captured name is the prefix before the last occurrence |
| SliceNames.LooseSuffix | src/reactor.ts:92 | the expression is not anchored: `fooSlice.tsx` yields `foo` |
| SliceNames.UnescapedDot | src/reactor.ts:92 | the '.' is not escaped: `fooSliceXts` yields `foo` |
| SliceNames.EmptyName | src/reactor.ts:92-93 | `Slice.ts` yields the empty name, which `isPresent` keeps |
| SliceNames.Greedy | src/reactor.ts:92 | in `aSlice.tsSlice.ts` the group runs to the last occurrence: `aSlice.ts` |
| SliceNames.MultiLine | src/reactor.ts:92 | with a line terminator, the match starts on the first line holding an occurrence |
| SliceNames.Slices | src/reactor.ts:90-93 | the index's list has at most one name per entry; `SlicesAppend` and `SlicesMembership` say which |
| SliceNames.SliceFiles | src/reactor.ts:60 | the slice files of a list of names, one per name in the same order |
| SliceNames.SlicesAppend | src/reactor.ts:90-93 | the names of a listing are the names of its parts, in order |
| SliceNames.SlicesMembership | src/reactor.ts:90-93 | a name is in the index list if and only if some entry of the listing captures it |
| SliceNames.SlicesOfSliceFiles | src/reactor.ts:60-93 | a listing of slice files gives back their names in listing order |
| SliceNames.CanonicalListing | src/reactor.ts:60-93 | when every matching entry is a slice file the CLI writes, the index names exactly the slices whose files are listed |
| SliceNames.DuplicateExport | src/reactor.ts:90-93 | `aSlice.ts` and `aSlice.tsx` both yield `a`, so the index lists `a` twice |
| SliceNames.Upper | src/reactor.ts:59 | a lower-case ASCII letter becomes the capital at the same place in the alphabet, every other character is left alone, and the result is never lower-case |
| SliceNames.Capitalize | src/reactor.ts:59 | `capitalize(name, true)` keeps the length, makes the first character `Upper` of the name's first character and keeps the rest; a name not starting with a lower-case letter comes back unchanged |
| SliceNames.CapitalizeIdempotent | src/reactor.ts:59 | capitalising twice is capitalising once |
| FileSystem.NoFileOn | src/reactor.ts:231 | definition: no prefix of the path is a file, which `mkdirSync` with `recursive` needs |
| FileSystem.CanWriteIn | src/reactor.ts:66 | definition: what `writeFileSync(p)` needs: `p` is not a directory and its parent is one |
| FileSystem.Written | src/reactor.ts:66 | definition: a file written for the first time is listed last; rewriting a file keeps the listing |
| FileSystem.SameButOther | src/reactor.ts:60-98 | after a change confined to two paths, any third path is present exactly when it was before |
| FileSystem.SameButUpdates | src/reactor.ts:66-98 | writing two paths changes nothing but those two |
| FileSystem.Children | src/reactor.ts:91 | definition: the names `readdirSync(d)` returns, the leaves of the entries directly in `d` in listing order |
| FileSystem.Without | src/reactor.ts:78 | an unlinked entry leaves the listing and every other entry stays |
| FileSystem.WithoutDistinct | src/reactor.ts:78 | unlinking keeps the listing free of repeats |
| FileSystem.Missing | src/reactor.ts:231 | the directories a recursive `mkdirSync` creates are the missing prefixes of the path, all of them, once each, shortest first |
| FileSystem.MadeDirs | src/reactor.ts:231 | definition: the directories once the missing prefixes of the path are created |
| FileSystem.MadeHasDir | src/reactor.ts:231 | making a directory makes it a directory |
| FileSystem.MadeAbove | src/reactor.ts:231 | making a directory creates nothing longer than it |
| FileSystem.NothingMissing | src/reactor.ts:229-231 | for an existing directory `mkdirSync` creates nothing |
| FileSystem.ChildrenMembership | src/reactor.ts:91 | `readdirSync(d)` lists a name if and only if `d/name` is an entry |
| FileSystem.ChildrenAppend | src/reactor.ts:91 | a new entry is listed after the old ones |
| FileSystem.ChildrenWithout | src/reactor.ts:78-91 | unlinking an entry drops its name from its parent's listing and changes no other listing |
| FileSystem.PrefixesAreDirs | src/reactor.ts:231 | every proper prefix of an entry in a directory is a directory |
| FileSystem.AddDir | src/reactor.ts:231 | creating a directory inside a directory keeps the invariant |
| FileSystem.AddFile | src/reactor.ts:66 | writing a file inside a directory keeps the invariant |
| FileSystem.RemoveFile | src/reactor.ts:78 | removing a file keeps the invariant |
| FileSystem.DirOnPath | src/reactor.ts:229 | no prefix of a directory is a file |
| FileSystem.AddMissing | src/reactor.ts:231 | creating the missing prefixes of a path with no file on it keeps the invariant and makes the path a directory |
| FileSystem.SameElsewhere | src/reactor.ts:150-187 | a change at one path leaves every other path as it was |
| FileSystem.Fs.IsDir | src/reactor.ts:229 | definition: `lstatSync(p).isDirectory()`; the empty path is the working directory |
| FileSystem.Fs.Exists | src/reactor.ts:75 | definition: `existsSync(p)`: `p` is a file or a directory |
| FileSystem.Fs.CanWrite | src/reactor.ts:66 | definition: `writeFileSync(p)` can succeed |
| FileSystem.Fs.ReadDir | src/reactor.ts:91 | `readdirSync(d)` succeeds if and only if `d` is a directory, and returns its entries in listing order |
| FileSystem.Fs.ReadFile | src/reactor.ts:215 | `readFileSync(p)` succeeds if and only if `p` is a file, and returns its contents |
| FileSystem.Fs.WriteFile | src/reactor.ts:66 | `writeFileSync(p)` succeeds if and only if `p` is not a directory and its parent is one; only `p` changes, a new file is listed last, and failure changes nothing |
| FileSystem.Fs.Unlink | src/reactor.ts:78 | `unlinkSync(p)` succeeds if and only if `p` is a file; only `p` goes, from the files and from the listing |
| FileSystem.Fs.Link | src/reactor.ts:253 | `linkSync(src, dst)` succeeds if and only if `src` is a file and `dst` is free in a directory; `dst` gets `src`'s contents and is listed last |
| FileSystem.Fs.MakeDirectory | src/reactor.ts:231 | `mkdirSync(p, {recursive})` succeeds if and only if no prefix of `p` is a file; it creates exactly the missing prefixes, lists them shortest first, and no file changes |
| Reactor.Dirname | src/reactor.ts:35-36 | definition: `path.dirname` of a relative path: the parent, and the working directory for a single segment or the working directory itself |
| Reactor.TemplateDir | src/reactor.ts:36 | definition: `reactor_tpl`, the directory `templates` beside the directory of the running script |
| Reactor.Template | src/reactor.ts:64 | definition: `path.join(reactor_tpl, file)` for a template file name |
| Reactor.SliceTemplate | src/reactor.ts:64 | definition: the slice template `stateSlice.ts.mustache` in the templates directory |
| Reactor.IndexTemplate | src/reactor.ts:95 | definition: the index template `state.ts.mustache` in the templates directory; `IndexTemplateApart` shows it is not the index |
| Reactor.ComponentTemplate | src/reactor.ts:111 | definition: the component template `component.tsx.mustache` in the templates directory |
| Reactor.SlicePath | src/reactor.ts:60 | definition: `path.join('src', 'state', name + 'Slice.ts')`; `SliceInStateDir` locates it |
| Reactor.ComponentPath | src/reactor.ts:107 | definition: `path.join('src', 'components', name + '.tsx')` |
| Reactor.IsRemoveVerb | src/reactor.ts:71-74 | definition: the four verbs that remove: `remove`, `rmv`, `del`, `delete` |
| Reactor.FileName | src/reactor.ts:95 | the fixed file names joined onto paths are single plain segments |
| Reactor.SliceLeaf | src/reactor.ts:60 | whatever the name, the slice path ends in a segment ending in "Slice.ts" |
| Reactor.SliceInStateDir | src/reactor.ts:60 | a name without '/' puts the slice directly inside `src/state` |
| Reactor.SliceNotIndex | src/reactor.ts:60-97 | no slice path is the index or the project's package.json |
| Reactor.SliceNotTemplate | src/reactor.ts:60-95 | no slice path is one of the state templates |
| Reactor.IndexTemplateApart | src/reactor.ts:95-97 | the index template is not the index |
| Reactor.Config | src/reactor.ts:214-220 | definition: the parsed package.json when it is a non-empty file, `None` when it is absent, empty or does not parse; `ValidateLocation` states its use |
| Reactor.CanUpdate | src/reactor.ts:241-253 | definition: what `updateFile` needs to succeed: the source a file, the destination a different path, no directory, inside a directory; `UpdateFile` succeeds exactly when it holds |
| Reactor.LocationValid | src/reactor.ts:215-222 | definition: package.json is a non-empty file that parses with a truthy `devDependencies[packageName]` |
| Reactor.ValidateLocation | src/reactor.ts:210-226 | succeeds if and only if package.json is non-empty, parses, and has a truthy `devDependencies[packageName]`; each failure has its own message, and nothing is written |
| Reactor.EnsureFolderExists | src/reactor.ts:228-239 | succeeds if and only if no prefix of the folder is a file; then the folder is a directory, exactly its missing prefixes are created and listed shortest first, and an existing directory or a failure leaves everything unchanged |
| Reactor.UpdateFile | src/reactor.ts:241-259 | fails with "… doesn't exist" and changes nothing when the source is missing; succeeds if and only if the source is a file and the destination a different non-directory in a directory; then only the destination changes, holds the source's contents and is listed last; updating a file onto itself unlinks it and fails; a failure after the unlink leaves the destination removed from files and listing, any other failure changes nothing |
| Reactor.ReplaceFile | src/reactor.ts:248-253 | with the destination a file: succeeds if and only if `updateFile` can; it then holds the source's contents and is listed last, and on failure it is removed from files and listing |
| Reactor.LinkFresh | src/reactor.ts:248-253 | with the destination no file: succeeds if and only if `updateFile` can, the destination then listed last; a directory there fails unchanged, and any failure leaves files and listing as they were |
| Reactor.ClearDestination | src/reactor.ts:249-251 | an existing destination file is unlinked, an absent one left alone, and a directory makes it fail unchanged |
| Reactor.IndexCode | src/reactor.ts:90-96 | definition: the index template rendered with the slices the listing of `src/state` yields, in listing order |
| Reactor.IndexCurrent | src/reactor.ts:90-98 | definition: `index.ts` holds the index the current listing calls for |
| Reactor.RebuildMakesCurrent | src/reactor.ts:90-98 | writing the rendered index makes it current: the new `index.ts` entry adds no slice and the template is not overwritten |
| Reactor.CanRender | src/reactor.ts:63-66 | definition: making the folder, reading the template and writing the file all succeed |
| Reactor.Rendered | src/reactor.ts:62-68 | definition: the file system after making the folder and writing the rendered template, with success exactly when `CanRender` holds, a blocked folder changing nothing, and a later failure leaving only the made folders |
| Reactor.IndexRebuilt | src/reactor.ts:90-99 | definition: the rebuild succeeds exactly when `src/state` is a directory, the template exists and the index is no directory, and then writes only the index the listing calls for |
| Reactor.SliceAdded | src/reactor.ts:60-99 | definition: `state add`: `Rendered` for the slice, then `IndexRebuilt` from what the slice step left |
| Reactor.SliceRemoved | src/reactor.ts:71-99 | definition: `state remove`: a missing slice fails unchanged; otherwise the slice goes from files and listing and `IndexRebuilt` follows |
| Reactor.RebuildIndex | src/reactor.ts:90-99 | the rebuild is `IndexRebuilt` of the old state: success if and only if `src/state` is a directory, the template exists and the index is not a directory; the index then holds the template rendered with the slices of the listing, is listed last when new, and nothing else changes |
| Reactor.StateCommand | src/reactor.ts:57-100 | an invalid location or an unknown verb fails and changes nothing; `add` succeeds if and only if the slice can be rendered and the index rebuilt, and ends as `SliceAdded` says; the remove verbs succeed if and only if the slice is a file, `src/state` a directory, the template present and the index no directory, end as `SliceRemoved` says, and fail with "… not found" on a missing slice; `update` is `IndexRebuilt`; success leaves the index current |
| Reactor.StateVerb | src/reactor.ts:60-99 | the same per-verb guarantees as the command, once the location is valid |
| Reactor.UpdateIdempotent | src/reactor.ts:83-99 | with the index current, `update` changes no file, directory or listing |
| Reactor.StateAdd | src/reactor.ts:62-99 | ends as `SliceAdded` says; succeeds if and only if `src/state` can be made, the template exists, the slice is writable and the index can be rebuilt; the index is then current and, for a name without '/' or line terminators, lists the name |
| Reactor.StateRemove | src/reactor.ts:71-99 | ends as `SliceRemoved` says, on success and on failure; a missing slice fails with "… not found"; success leaves the index current and the slice's file out of the listing it is built from |
| Reactor.AddSlice | src/reactor.ts:62-68 | `Rendered` for the slice: succeeds if and only if `src/state` can be made, the template exists and the slice path is writable; then `src/state` and its missing parents are made and listed, and the slice is written and listed last when new |
| Reactor.RemoveSlice | src/reactor.ts:71-81 | succeeds if and only if the slice file exists; only it is removed, from the files and from the listing |
| Reactor.SliceListed | src/reactor.ts:60-93 | for a name without '/' or line terminators, a slice file present in `src/state` contributes that name to the index |
| Reactor.SliceUnlisted | src/reactor.ts:78-91 | a removed slice's file is not in the listing of `src/state` |
| Reactor.FreshStateDir | src/reactor.ts:63 | before `src/state` exists nothing is listed in it, the index is absent, and making `src/state` does not make the index a directory |
| Reactor.Unlisted | src/reactor.ts:63 | before `src/state` exists no entry, old or made, lies directly inside it |
| Reactor.FreshSlice | src/reactor.ts:60-63 | before `src/state` exists a slice path is no file and is not made a directory |
| Reactor.ListedLast | src/reactor.ts:91 | an entry added to `src/state` is listed after the others |
| Reactor.LocationKept | src/reactor.ts:215-222 | the location check depends on package.json alone |
| Reactor.AddStep | src/reactor.ts:60-99 | `state add` with both templates present, nothing but directories on the way to `src/state`, and neither the slice nor the index a directory: it succeeds, makes `src/state`, writes only the slice and the index, and lists what it made, the slice and the index in that order |
| Reactor.Renderable | src/reactor.ts:62-66 | a slash-free slice whose path is not made a directory can be rendered once `src/state` is made |
| Reactor.Rebuilt | src/reactor.ts:90-98 | a rebuild whose conditions hold succeeds and writes the index |
| Reactor.RemoveStep | src/reactor.ts:71-99 | `state remove` of an existing slice with `src/state` a directory, the template present and the index no directory: it succeeds, the slice is gone, no file but the slice and the index changes, and the index is rendered from the listing without the slice |
| Reactor.SessionNames | src/reactor.ts:60 | "cart" and "user" have no '/', "user" no line terminator, and their slice files differ |
| Reactor.SessionListing | src/reactor.ts:90-93 | after `add a`, `add b`, `remove a` on an empty `src/state`, the index names `b` alone |
| Reactor.SessionPaths | src/reactor.ts:60-63 | two slash-free names with different slice files give two different files directly in `src/state`, neither of them the index |
| Reactor.AddListing | src/reactor.ts:63-66 | an `add` lists the made directories, then the slice and the index where each is new |
| Reactor.AddCommand | src/reactor.ts:57-99 | `reactor state add name` in a valid location ends as `SliceAdded` says |
| Reactor.SessionAdd | src/reactor.ts:57-99 | `state add` through the command under `AddStep`'s conditions: success, the new listing, and what a further `add` needs |
| Reactor.AddedState | src/reactor.ts:63-95 | after an `add`, `src/state` is a directory, nothing more is missing on the way to it, and the templates are as they were |
| Reactor.MadeDir | src/reactor.ts:229-231 | once a folder is a directory, making it again changes nothing and no file lies on the way to it |
| Reactor.AddRemoveListing | src/reactor.ts:90-93 | after `add name`, `remove name` on an empty `src/state`, the index names no slice |
| Reactor.SessionRemove | src/reactor.ts:57-99 | `state remove` through the command under `RemoveStep`'s conditions: success, the slice gone, no other file but the index changed, and the rendered index |
| Reactor.AddTwo | src/reactor.ts:57-99 | `state add a` then `state add b` for different slice-file names in a project without `src/state`: both succeed, both slices are files, and the listing gains the made directories, slice `a`, the index and slice `b`, in that order |
| Reactor.AddRemove | src/reactor.ts:57-99 | `state add name` then `state remove name` in a project without `src/state`: both succeed and the index is the template rendered with no slices |
| Reactor.AddAddRemove | src/reactor.ts:57-99 | `state add a`, `state add b`, `state remove a` for two plain names in a project without `src/state`: all succeed, slice `a` is gone, slice `b` stays, and the index is the template rendered with `[b]` |
| Reactor.StateSession | src/reactor.ts:57-99 | `state add cart`, `state add user`, `state remove cart` in a project without `src/state`: all succeed, the cart slice is gone, the user slice stays, and the index is the template rendered with `["user"]` |
| Reactor.ComponentCommand | src/reactor.ts:105-137 | an invalid location or an unknown verb fails unchanged, with the state command's message; `add` ends as `Rendered` says for the component, succeeding if and only if it can be rendered; the remove verbs succeed if and only if the file exists, remove only it and change nothing on failure, and fail with "… not found" on a missing file; `update` succeeds and changes nothing |
| Reactor.AddComponent | src/reactor.ts:109-118 | `Rendered` for the component: succeeds if and only if `src/components` can be made, the template exists and the path is writable; then the made directories are listed and the component written and listed last when new |
| Reactor.RemoveComponent | src/reactor.ts:120-130 | succeeds if and only if the component exists; only it is removed, from the files and from the listing |
| Packaging.ManifestProps | src/reactor.ts:188-196 | the manifest has seven properties, with the keys in order |
| Packaging.NewManifest | src/reactor.ts:188-197 | the manifest is an object |
| Packaging.ManifestKeysDistinct | src/reactor.ts:188-196 | the manifest's keys are distinct |
| Packaging.ManifestAt | src/reactor.ts:188-197 | each manifest key has the value given for it |
| Packaging.ManifestCopies | src/reactor.ts:189-194 | name, version, description, author and license are the project's (absent when the project has none) |
| Packaging.ManifestProductName | src/reactor.ts:190 | productName is the project's when truthy, the name otherwise |
| Packaging.ManifestMain | src/reactor.ts:195 | main is always "main.js" |
| Packaging.ManifestNothingElse | src/reactor.ts:188-197 | no other property of the project's package.json is copied |
| Packaging.TemplateText | src/reactor.ts:203 | definition: the text `${v}` makes of a property value: the string itself, "undefined" for a missing one, `String(v)` otherwise |
| Packaging.PackagerArgs | src/reactor.ts:200-207 | a packaging run is `electron-packager build/prod --electronVersion=<v> --out=dist --overwrite` followed by the pass-through arguments |
| Packaging.ElectronManifest | src/reactor.ts:154 | definition: `path.join(dir, 'package.json')` for the directory Electron resolves to; `LeafOfJoin` shows its last segment is `package.json` |
| Packaging.MainScript | src/reactor.ts:150 | definition: `path.join(reactor_dist, 'main.js')`, the source `updateFile` joins at line 242; `MainNotMade` shows making `build/prod` leaves it alone |
| Packaging.ElectronReadable | src/reactor.ts:154-156 | definition: Electron resolves and its package.json parses to a value other than null |
| Packaging.CleanCompile | src/reactor.ts:160-181 | definition: webpack finished without errors; warnings do not count |
| Packaging.CanLinkMain | src/reactor.ts:148-150 | definition: what the link needs: no file on the way to `build/prod`, the CLI's `main.js` a file other than the link, and the link no directory |
| Packaging.LinkedEntries | src/reactor.ts:148-150 | definition: the listing once `build/prod` is made and the link replaced, the link last |
| Packaging.BuiltEntries | src/reactor.ts:148-197 | definition: the listing after a finished build: the link, then the manifest when it is new |
| Packaging.Linked | src/reactor.ts:148-150 | definition: the state after a successful link: the build folder made, the link holding the CLI's `main.js`, the listing as `LinkedEntries` says |
| Packaging.LinkFailed | src/reactor.ts:148-150 | definition: the state after a failed link: a blocked build folder changes nothing; otherwise the folder is made, and an old link is unlinked exactly when the CLI's `main.js` exists |
| Packaging.MainNotMade | src/reactor.ts:148-150 | making `build/prod` does not make the CLI's `main.js` a directory |
| Packaging.LinkMain | src/reactor.ts:148-150 | succeeds if and only if the link can be made; then `build/prod` is a directory, `build/prod/main.js` holds the CLI's `main.js` and nothing else changes, with the listing as `LinkedEntries` says (`Linked`); a failure ends as `LinkFailed` says, and a blocked build folder changes nothing |
| Packaging.ReadElectronVersion | src/reactor.ts:154-156 | the version is read if and only if Electron resolves and its package.json parses; it is that file's `version` |
| Packaging.WriteManifest | src/reactor.ts:187-197 | succeeds if and only if package.json parses and `build/prod/package.json` is writable; it then holds the stringified manifest, is listed last when new, and nothing else changes |
| Packaging.Packaged | src/reactor.ts:148-207 | definition: a finished build: the packager got Electron's version, and the build folder holds the link and the manifest, with no other file changed |
| Packaging.Build | src/reactor.ts:144-208 | an npm or location failure fails with no command run and nothing changed; the packager runs if and only if npm loads, the location is valid, the link can be made, Electron is readable, the compilation is clean (warnings allowed) and the manifest is no directory; a failed compilation runs nothing and leaves the manifest as it was; once the location is valid, a failure after the link leaves the state `Linked` and a failed link ends as `LinkFailed` says; a run means the build is `Packaged`, with the directories made and the listing as `BuiltEntries` says |
| Packaging.Package | src/reactor.ts:148-207 | after a valid location: the packager runs if and only if the link can be made, Electron is readable, the compilation is clean and the manifest is no directory; a failure after the link leaves the state `Linked`, a failed link ends as `LinkFailed` says; the same guarantees as the whole build then |
| Packaging.PublishLinked | src/reactor.ts:150-207 | the steps after the link, stated in terms of the files before it: the packager runs if and only if Electron is readable, the compilation is clean and the manifest was no directory, and the build is then `Packaged`; any failure before the packager changes nothing |
| Packaging.LinkKeeps | src/reactor.ts:150-156 | the link changes neither the project's package.json, nor Electron's, nor whether the manifest exists |
| Packaging.PublishedAfterLink | src/reactor.ts:150-197 | the manifest and Electron's package.json read after the link are the ones before it |
| Packaging.Publish | src/reactor.ts:154-207 | the packager runs if and only if Electron is readable, the compilation is clean and the manifest is writable; it gets the version read from Electron's package.json, after the manifest is written and listed; any failure before the packager changes nothing |
| Packaging.Debug | src/reactor.ts:46-51 | Electron runs on `main.dev.js` with the pass-through arguments if and only if npm loads and the location is valid; the file system is not touched |

## Left out

- Output on the console (the `pass` and `fail` lines, chalk colours, webpack's error and warning printing) is not modelled. A `fail` is `Fail(msg)`, with `msg` the text `fail` prints.
- `Mustache.render`, `JSON.parse`, `JSON.stringify` and `String(v)` are functions the model takes as parameters. The template texts are not part of this model.
- `npm.load`, the resolution of the `electron` module, the webpack compiler and `npm exec` are values the model takes as parameters. What the spawned programs do is not modelled; `invoked` records the command lines they are given.
- The webpack configuration (`configFcn`, src/webpack.config.renderer.ts), the Electron main process (src/main.ts) and the renderer files are not part of this model.
- Packaging.Build: webpack's output files (the bundle it writes into `build/prod`, src/webpack.config.renderer.ts:48) are not modelled; compiling changes no file in the model, so `Packaged` names the link and the manifest as the only files a build changes.
- `path.dirname(__filename)` (src/reactor.ts:35), the directory of the running script, is the parameter `Env.dist`, a path relative to the project like any other. Absolute paths are not modelled.
- The order in which `readdirSync` lists a directory is modelled as the order in which the entries were created. Real file systems may list in another order.
- SliceNames.Capture: strings are sequences of Unicode characters. JavaScript runs a regular expression without the `u` flag over UTF-16 code units, so for an entry holding a character outside the Basic Multilingual Plane the two can differ: `.` matches only half of a surrogate pair in JavaScript, so `xSlice\u{1F600}ts` yields `x` in the model and no match in Node.
- Fs.Link: a hard link is modelled as a copy of the contents. Later writes through one name do not show through the other, because files are values in a map.
- UpdateFile: takes the joined paths `srcdir/file` and `dstdir/file` rather than the three strings; its caller does the `path.join`.
- UpdateFile: the failure "`dst` doesn't exist" after a successful link cannot happen in the model, so it has no branch.
- EnsureFolderExists: the failure "couldn't create folder" after a successful `mkdirSync` cannot happen in the model, so it has no branch.
- SliceNames.Capitalize: upper-cases only the ASCII letters `a`-`z`. The `capitalize` package uses JavaScript's full Unicode `toUpperCase`.
- SliceNames.Upper: maps only `a`-`z` to `A`-`Z` and leaves every other character as it is. JavaScript's `toUpperCase` also maps letters outside ASCII, for example `é` to `É`.
- Paths.Join: keeps the leading `..` segments that `path.join` keeps, but the file system of the model has nothing above the working directory. A path beginning with `..` is read as an entry named `..` inside the working directory, not as the parent directory.
- Reactor.SlicePath: a name with more `..` segments than `src/state` is deep gives a path beginning with `..`, for example `["..", "xSlice.ts"]` for `../../../x`. The model reads that as an entry of the working directory named `..`, not as the project's parent directory.
- StateCommand: `state add ../../../x` writes `../xSlice.ts` into the project's parent directory in Node. The model fails instead, unless its file system holds a directory entry named `..`. The same holds for the component command with a name that leads outside the working directory.
- Json.Get: gives only an object's own members. Inherited properties and indexing into a string or an array are not modelled; the CLI reads only object properties.
- Exceptions of `JSON.parse` and rejected promises are a `Fail` with the error's name or message. Their stack traces are not modelled.

## Behaviour of the source worth knowing

- The slice-file-to-name mapping is not an exact inverse. `/(.*)Slice.ts/` (src/reactor.ts:92) is neither anchored nor escaped, so `fooSlice.tsx` and `fooSliceXts` also yield `foo`, and two files can export one name twice. `SliceNames.LooseSuffix`, `UnescapedDot` and `DuplicateExport` exhibit this; `CanonicalListing` states when the index is exact.
- `src/reactor.ts` defines the commands `debug`, `state`, `component` and `build` only.
- An empty package.json fails with "error reading package.json" (src/reactor.ts:216-217), while invalid JSON makes `JSON.parse` throw (src/reactor.ts:221). The two are distinct failures in the model.
- A build creates `build/prod`, links `main.js` and reads Electron's version before it compiles (src/reactor.ts:148-156). A failed compilation therefore leaves the folder and the link behind.
- The manifest written into `build/prod` (src/reactor.ts:188-196) has no dependencies, and the build runs no install step.
- `reactor debug` only runs `electron` on `main.dev.js` (src/reactor.ts:50-51). Any development server is started by code that is not part of this model.
