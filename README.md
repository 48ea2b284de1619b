# Adapt framework LESS build: a Dafny model

This project models the part of the Adapt framework's Grunt build that
decides which plugin stylesheets go into `adapt.css` and in what order:

- **Inclusion and script-safe rules** (`grunt/helpers.js`).
  - The included, excluded, nested-included and script-safe patterns are built from the build's `includes`, `excludes`, `productionExcludes` and `scriptSafe` lists.
  - Each pattern is stored in the Grunt configuration on first use.
  - `isPathIncluded` and `isPluginScriptSafe` decide on a slash-normalised path.
  - `orderFilesByPluginType` sorts files in place by the index of their plugin.
  - `getIncludes` adds one level of manifest dependencies to the include list.
  - `appendSlash` ends a folder with a slash.
- **The LESS path comparator and targets** (`grunt/config/less.js`).
  - `compareFilePaths` compares two paths with POSIX `path.parse`, and `sortLESSFilePaths` sorts with it.
  - `includedFilter` delegates to the helpers.
  - The `dev` and `compile` targets are modelled as option records.
- **The `less` task** (`grunt/tasks/less.js`).
  - It prints the screen-size breakpoint variables, converting px to em above 300.
  - It appends one `@import` line per mandatory file, then per filtered source file.
  - It deletes stale source maps when source maps are off.
  - It writes the CSS, the map and the `.imports` file, or fails without writing.
- **The plugin collection** (`grunt/helpers/Plugins.js`).
  - The constructor defaults, `pluginLocations`, `load`, `sortBy` and `getAllPackageJSONFileItems`.

The modules are:

- `JsRuntime`: the JavaScript string operations the code relies on.
- `LiteralRegExp`: the `|`-unions of literal text the code builds, with `search` over them.
- `ArraySort`: `Array.prototype.sort`, as a stable insertion.
- `GruntHelpers`: the Grunt configuration, held in class `GruntConfig`, and the helpers above.
- `LessConfig`: the comparator and the targets.
- `LessTask`: the Grunt `less` task, with the output folder in class `BuildOutput`.
- `PluginCollection`: class `Plugins`.

Things outside the code are parameters:

- the file system and glob expansion are maps and functions;
- the LESS renderer is a function from the import text and options to CSS or an error;
- JavaScript number printing is a function from reals to text;
- loading one plugin is a function from its folder to what its `package.json` says.

Where the code and its documented behaviour differ, the model follows the
code:

- An empty list of names joins to the pattern source `''`, and that pattern matches every path.
  - So a configured but empty `excludes` list leaves every path out of the build (`GruntHelpers.EmptyExcludeListRejectsAll`).
  - An empty `includes` list lets every path through the include check.
- An explicitly empty list and an absent list are different. Only when both `includes` and `excludes` are absent does `isPathIncluded` accept every path without looking at it.

## Model

| member | source | states |
|---|---|---|
| JsRuntime.ConvertSlashes | grunt/helpers.js:254 | every `\` becomes `/`, every other character is kept, the length is kept, and no `\` is left |
| JsRuntime.ConvertSlashesIdempotent | grunt/config/less.js:39-41 | converting slashes twice is the same as converting once |
| JsRuntime.ToLower | grunt/helpers.js:72 | `toLowerCase` keeps the length and lowers each ASCII capital by 32, leaving other characters alone |
| JsRuntime.Substr | grunt/tasks/less.js:61 | `substr(start)` is the tail after the first `start` characters, and the empty string past the end |
| JsRuntime.LexLessIrreflexive | grunt/config/less.js:6 | no string is `<` itself |
| JsRuntime.LexLessAsymmetric | grunt/config/less.js:6 | `a < b` and `b < a` never both hold |
| JsRuntime.LexLessTotal | grunt/config/less.js:6 | two different strings are ordered one way or the other |
| JsRuntime.LexLessCommonPrefix | grunt/config/less.js:6 | a shared prefix does not change string order |
| JsRuntime.LexLessProperPrefix | grunt/config/less.js:6 | a proper prefix is `<` the longer string |
| LiteralRegExp.Search | grunt/helpers.js:264-265 | `search` gives -1 exactly when no alternative matches anywhere; otherwise the first index where one matches |
| LiteralRegExp.SegmentThenMeaning | grunt/helpers.js:41 | `([^/]*)` followed by the rest matches exactly when some slash-free run is followed by a match of the rest |
| LiteralRegExp.FoundOr | grunt/helpers.js:29 | the source `x + '\|' + y` matches when `x` matches or `y` matches |
| LiteralRegExp.FoundJoin | grunt/helpers.js:26 | a `join('\|')` of patterns matches when one of them matches; the join of none matches every string |
| LiteralRegExp.FoundLiteral | grunt/helpers.js:28-29 | a literal pattern matches exactly where its text occurs, ignoring case |
| LiteralRegExp.FoundJoinLiterals | grunt/helpers.js:26 | a join of literal texts matches when one text occurs, ignoring case, or when there are none |
| ArraySort.Sort | grunt/helpers.js:119 | the sorted array is a permutation of the input |
| ArraySort.SortByKeySorted | grunt/helpers.js:119 | sorting with `(a, b) => key(a) - key(b)` gives keys in nondecreasing order |
| ArraySort.SortByKeyStable | grunt/helpers/Plugins.js:79 | sorting with a key comparator keeps the relative order of the elements sharing any one key |
| GruntHelpers.AppendSlash | grunt/helpers.js:12-17 | no result for a missing or empty folder; otherwise the folder if it already ends with `/`, else the folder plus `/`; the result always ends with `/` |
| GruntHelpers.AppendSlashIdempotent | grunt/helpers.js:12-17 | appending a slash twice is the same as once |
| GruntHelpers.TypeFolders | grunt/helpers.js:26 | one folder `src/<type>/<name>/` per plugin type, in the order of the type list |
| GruntHelpers.ScriptSafeFolders | grunt/helpers.js:72 | one text `/<lower-cased name>/` per script-safe name, in list order |
| GruntHelpers.GenerateScriptSafeRegExp | grunt/helpers.js:66-76 | the loop that appends each `/<name>/` and the separators builds the join of those texts, and the empty source for an empty list |
| GruntHelpers.PluginFoldersMeaning | grunt/helpers.js:26 | one include's pattern matches exactly when the path contains `src/<type>/<name>/` for some plugin type, ignoring case |
| GruntHelpers.EachPluginFoldersMeaning | grunt/helpers.js:26 | the joined pattern for a list of names matches when the path is under one of the named plugins' folders, or when the list is empty |
| GruntHelpers.IncludedRegExpMeaning | grunt/helpers.js:20-29 | the included pattern matches exactly when the include list is empty, or the path contains `src/core/`, or it is under an included plugin's folder |
| GruntHelpers.ExcludedRegExpMeaning | grunt/helpers.js:49-59 | the excluded pattern matches exactly when the exclude list is empty or the path is under an excluded plugin's folder |
| GruntHelpers.NestedAlternativeMeaning | grunt/helpers.js:41 | one nested alternative matches at an index exactly when `src/`, two slash-free segments and `/less/plugins/<name>/` follow there |
| GruntHelpers.NestedIncludedRegExpMeaning | grunt/helpers.js:36-42 | the nested pattern matches exactly when the include list is empty or the path holds `src/<s1>/<s2>/less/plugins/<name>/` for an included name |
| GruntHelpers.ScriptSafeRegExpMeaning | grunt/helpers.js:66-76 | the script-safe pattern matches exactly when the list is empty or the path contains `/<lower-cased name>/` for a listed name |
| GruntHelpers.DecisionMeaning | grunt/helpers.js:253-289 | the decision chain of `isPathIncluded`, run on the patterns built from the lists, equals the rule stated on the names: no rules admit everything; otherwise no excluded plugin, an included plugin or core, and an included plugin inside a nested `/less/plugins` folder |
| GruntHelpers.EmptyExcludeListRejectsAll | grunt/helpers.js:58-59 | with a configured but empty exclude list, every path is rejected |
| GruntHelpers.ScriptSafeDecisionMeaning | grunt/helpers.js:291-298 | `isPluginScriptSafe` throws when no list is configured and scripts are not allowed; otherwise it is true exactly when scripts are allowed, the list starts with `*`, the list is empty, or the path contains a listed `/<name>/` |
| GruntHelpers.GruntConfig.GetIncludedRegExp | grunt/helpers.js:19-33 | the first call builds the included pattern and stores it; later calls return the stored one |
| GruntHelpers.GruntConfig.GetNestedIncludedRegExp | grunt/helpers.js:35-46 | the same memoisation for the nested pattern |
| GruntHelpers.GruntConfig.GetExcludedRegExp | grunt/helpers.js:48-63 | the first call builds the pattern from the excludes, plus the production excludes in a production build, and pushes those onto a configured exclude list; later calls return the stored pattern and change nothing |
| GruntHelpers.GruntConfig.GetScriptSafeRegExp | grunt/helpers.js:65-79 | the same memoisation for the script-safe pattern |
| GruntHelpers.GruntConfig.IsPathIncluded | grunt/helpers.js:253-289 | the answer is the decision chain on the slash-converted path with the patterns as they stood or were built; exactly the patterns the chain reaches get stored, the production excludes join a configured exclude list when the excluded pattern is built, and the patterns later calls use are unchanged |
| GruntHelpers.GruntConfig.RejectedNow | grunt/helpers.js:264-271 | a path is rejected exactly when it matches a configured exclude pattern or misses a configured include pattern; only the configured lists' patterns are built and stored |
| GruntHelpers.GruntConfig.NestedAllows | grunt/helpers.js:273-288 | a path outside a nested `less/plugins` folder passes; one inside passes exactly when it matches the nested pattern, which is stored only then |
| GruntHelpers.GruntConfig.IsPluginScriptSafe | grunt/helpers.js:291-300 | the answer is the script-safe decision on the slash-converted path; the pattern is stored only when a list is configured |
| GruntHelpers.IncludedOnFreshBuild | grunt/helpers.js:253-289 | on a configuration with no stored patterns, `isPathIncluded` answers by the rule on the names, with the production excludes added in a production build |
| GruntHelpers.PluginIndex | grunt/helpers.js:119 | `findIndex` of the plugin path that starts the file: -1 when none does, otherwise the first such index |
| GruntHelpers.OrderFilesByPluginType | grunt/helpers.js:116-121 | the same array is returned, holding the stable sort of its old contents by plugin index |
| GruntHelpers.SortInPlace | grunt/helpers.js:119 | the in-place sort leaves the array equal to the stable key sort of its old contents |
| GruntHelpers.InsertIntoSorted | grunt/helpers.js:119 | shifting one element into the sorted prefix gives the prefix with that element inserted, and leaves the rest alone |
| GruntHelpers.ShiftGreater | grunt/helpers.js:119 | the elements in front of the one being placed that have a greater key move one place right, no other element moves, and the element in front of the gap has a key no greater |
| GruntHelpers.OrderedByPluginType | grunt/helpers.js:116-121 | the ordered files are a permutation of the input, in nondecreasing plugin index; files of no plugin come first; files of one plugin keep their order |
| GruntHelpers.Intersection | grunt/helpers.js:130 | `_.intersection` holds exactly the installed folders that are included, each once |
| GruntHelpers.GetIncludes | grunt/helpers.js:123-144 | fails exactly when a plugin type folder is missing; otherwise the defaults, then the build includes, then the collected dependencies |
| GruntHelpers.AddPluginDependencies | grunt/helpers.js:131-140 | one type's included plugins add, plugin after plugin, the new dependencies of each readable manifest to what was collected before |
| GruntHelpers.AddNewDependencies | grunt/helpers.js:134-136 | exactly the manifest's keys that are not build includes are pushed, in key order, after what was collected before |
| GruntHelpers.NewDependenciesMembers | grunt/helpers.js:134-136 | a dependency key is collected exactly when it is not already a build include |
| GruntHelpers.PluginDependenciesMembers | grunt/helpers.js:131-140 | collected from one type: a dependency of an included plugin with a readable manifest that is not already included |
| GruntHelpers.TypeDependenciesMembers | grunt/helpers.js:127-143 | collected overall: a dependency of a plugin that is installed in a type folder and included, that is not already included |
| LessTask.EmBreakpoint | grunt/tasks/less.js:37-45 | a value above 300 is divided by 16, any other value is kept |
| LessTask.DefaultBreakpoints | grunt/tasks/less.js:19-49 | with a `src` list and a `config` path but no readable `screenSize`, the header holds the default 900, 760 and 520 px as 56.25, 47.5 and 32.5 em |
| LessTask.ParentFolder | grunt/tasks/less.js:12 | `path.join(resolved, '../')` is a prefix of the resolved path ending in `/`, with no slash after it |
| LessTask.CollapseSlashesMeaning | grunt/tasks/less.js:54 | collapsing leaves no two slashes in a row, keeps every other character in order, and keeps the first and last characters of a non-empty path |
| LessTask.CollapseUnchanged | grunt/tasks/less.js:54 | a path without doubled slashes is left as it is |
| LessTask.PathJoinShape | grunt/tasks/less.js:54 | `path.join` never returns an empty path and never doubles a slash; it is `.` for two empty parts, and otherwise keeps every non-slash character of the folder followed by every one of the glob |
| LessTask.PathJoinOneSlash | grunt/tasks/less.js:54 | joining a folder and a glob, each without doubled slashes, gives the folder without its trailing slash, exactly one `/`, and the glob without its leading slash |
| LessTask.NamesInOneFolder | grunt/tasks/less.js:94 | two non-empty file names of different lengths without slashes, joined to the same folder, give different paths |
| LessTask.ImportBlockAppend | grunt/tasks/less.js:59-63 | one more file appends exactly its `@import '<trimmed>';` line |
| LessTask.ImportBlockConcat | grunt/tasks/less.js:52-81 | the lines for two lists of files are the lines of the first, then those of the second |
| LessTask.Trimmed | grunt/tasks/less.js:61 | each path loses its first `rootPath.length` characters |
| LessTask.ParseImportLine | grunt/tasks/less.js:62 | one import line is read back as its path followed by the rest |
| LessTask.ImportBlockRoundTrip | grunt/tasks/less.js:59-63 | reading the import lines back gives exactly the trimmed paths, in order |
| LessTask.ImportPathRelativeToRoot | grunt/tasks/less.js:61 | when the root path starts the file, root plus trimmed path is the file |
| LessTask.Filter | grunt/tasks/less.js:70-74 | a file is kept exactly when it is expanded and passes the filter |
| LessTask.SourceFilesPassFilter | grunt/tasks/less.js:67-81 | every source file imported passes the filter, whenever the order callback keeps the filter's verdicts |
| LessTask.AppendImports | grunt/tasks/less.js:59-63 | the per-file loop appends exactly the import lines of the files |
| LessTask.AppendGlobImports | grunt/tasks/less.js:52-65 | the per-glob loop appends the import lines of every glob's files, glob after glob |
| LessTask.WriteBreakpoints | grunt/tasks/less.js:16-50 | the text starts as the breakpoint header: the three em variables when there is a `src` list and a `config` path, nothing otherwise |
| LessTask.BuildImports | grunt/tasks/less.js:16-81 | the import text is the breakpoint header, then the mandatory files' lines, then the filtered source files' lines |
| LessTask.WrittenFiles | grunt/tasks/less.js:129-134 | after success the CSS is written; the map and `.imports` files are written only when a map was produced; every other file is untouched |
| LessTask.BuildOutput.RemoveStaleSourceMaps | grunt/tasks/less.js:93-105 | with source maps off the map and `.imports` files are gone afterwards; with them on nothing changes |
| LessTask.BuildOutput.Complete | grunt/tasks/less.js:118-136 | a render error fails fatally with nothing written and `done` not called; success writes the outputs and calls `done` once |
| LessTask.BuildOutput.Run | grunt/tasks/less.js:12-136 | the Grunt task renders the import text built from the options and ends in the output folder and state that `complete` gives, after the stale-map cleanup |
| LessConfig.ParseAt | grunt/config/less.js:17-18 | `path.parse` splits at the last slash and the last dot after it |
| LessConfig.ParseFile | grunt/config/less.js:17-18 | `path.parse(dir + '/' + name + '.' + ext)` gives back the folder and the name |
| LessConfig.AlphanumericOrder | grunt/config/less.js:5-7 | -1, 1 or 0 exactly when `a < b`, `b < a` or `a == b` |
| LessConfig.LengthOrder | grunt/config/less.js:9-11 | -1, 1 or 0 exactly when the first is shorter, longer or as long |
| LessConfig.CompareFilePaths | grunt/config/less.js:13-35 | the comparator returns -1, 0 or 1 |
| LessConfig.CompareFilePathsAntisymmetric | grunt/config/less.js:13-35 | swapping the arguments negates the result, and a path compares 0 with itself |
| LessConfig.NamePrefixComesFirst | grunt/config/less.js:24-34 | in one folder, a file whose name starts the other's comes first |
| LessConfig.UnrelatedNamesCompareAlphanumerically | grunt/config/less.js:17-26 | in different folders, or when neither name starts the other, the order is the string order of the whole paths |
| LessConfig.ParseNamePrefix | grunt/config/less.js:17-18 | the parsed folder, a slash and the parsed name start the path (no folder: the name alone) |
| LessConfig.SameFolderOrdersByName | grunt/config/less.js:19-34 | within one folder the comparator orders two files as their names are ordered |
| LessConfig.BaseFileBeforeExtendedName | grunt/config/less.js:28-34 | `d/button.less` comes before `d/button-group.less`, although it is after it in string order |
| LessConfig.ExtendedBeforeNested | grunt/config/less.js:19 | `d/button-group.less` comes before `d/button-h/a.less` |
| LessConfig.NestedBeforeBase | grunt/config/less.js:19 | `d/button-h/a.less` comes before `d/button.less` |
| LessConfig.CompareFilePathsCycle | grunt/config/less.js:13-35 | the three paths compare in a cycle, so the comparator is not a consistent order |
| LessConfig.ConvertAll | grunt/config/less.js:39-41 | each path with its backslashes converted, in order |
| LessConfig.SortLessFilePaths | grunt/config/less.js:37-43 | the result is a permutation of the converted paths, and no path in it holds a backslash |
| LessConfig.SortLessFilePathsExample | grunt/config/less.js:37-43 | sorting `[d/button-group.less, d/button.less]` puts the base file first |
| LessConfig.IncludedFilter | grunt/config/less.js:45-47 | the target filter answers as `isPathIncluded` and leaves the patterns every later call uses as they were |
| LessConfig.IncludedFilterTwice | grunt/config/less.js:45-47 | asking about the same path twice gives the same answer |
| LessConfig.ConvertedFirstEitherSlash | grunt/helpers.js:254 | a filter that converts slashes before deciding answers a path the same with either kind of slash |
| LessConfig.SortKeepsFilter | grunt/config/less.js:37-43 | `sortLESSFilePaths` returns only slash-converted input paths, so it keeps the verdicts of a filter that reads either slash alike |
| LessConfig.DevOptions | grunt/config/less.js:50-81 | the `dev` target makes source maps and does not compress, and its map is a different file from its CSS |
| LessConfig.CompileOptions | grunt/config/less.js:82-107 | the `compile` target compresses and makes no source maps, and its map is a different file from its CSS |
| LessConfig.TargetsImportCoreFirst | grunt/config/less.js:50-66 | both targets print the breakpoints, then import the sorted core files, unfiltered, then the sorted filtered plugin files |
| LessConfig.TargetPathsDiffer | grunt/config/less.js:62-64 | the map file of a target is never the stylesheet |
| LessConfig.TargetSourcesIncluded | grunt/config/less.js:56-66 | every plugin file either target imports from its `src` glob is included by the decision chain of `isPathIncluded`, after the sort has rewritten its slashes |
| PluginCollection.Loaded | grunt/helpers/Plugins.js:58-71 | at most one plugin per candidate, each an Adapt plugin loaded from its folder |
| PluginCollection.Probed | grunt/helpers/Plugins.js:58-61 | at most one folder read per candidate |
| PluginCollection.LoadedMembers | grunt/helpers/Plugins.js:58-71 | a plugin is kept exactly when its candidate passes the filter and its folder `candidate + '/'` holds an Adapt plugin |
| PluginCollection.LoadedAppend | grunt/helpers/Plugins.js:58-71 | loading keeps glob order: the plugins of earlier candidates come first |
| PluginCollection.ProbedMembers | grunt/helpers/Plugins.js:59-61 | a folder is read exactly when its candidate passes the filter, so a rejected candidate is never loaded |
| PluginCollection.TypeRank | grunt/helpers/Plugins.js:78-79 | ranks 1 to 5 for core, component, extension, menu and theme, 0 exactly for a missing or unknown type |
| PluginCollection.SortedByTypeOrders | grunt/helpers/Plugins.js:75-80 | sorting by type is a permutation in nondecreasing rank that keeps plugins of equal rank in their order |
| PluginCollection.AllFileItemsMembers | grunt/helpers/Plugins.js:86-91 | an item is collected exactly when some plugin's `package.json` holds it |
| PluginCollection.AllFileItemsAppend | grunt/helpers/Plugins.js:86-91 | the items of two plugin lists are those of the first, then those of the second |
| PluginCollection.Plugins.constructor | grunt/helpers/Plugins.js:22-44 | each missing option takes its default: a filter accepting every path, `cwd + '/src/'`, `course`; the plugin list starts empty |
| PluginCollection.Plugins.PluginLocations | grunt/helpers/Plugins.js:50-54 | a single glob: the source path followed by `node_modules/adapt-*` |
| PluginCollection.Plugins.Load | grunt/helpers/Plugins.js:57-73 | replaces the plugin list with the kept plugins of the glob's candidates, reads only folders that pass the filter, and returns the same collection |
| PluginCollection.Plugins.SortBy | grunt/helpers/Plugins.js:75-83 | sorts by type rank for `type` or a missing key and leaves the list unchanged for any other key; returns the same collection |
| PluginCollection.Plugins.GetAllPackageJSONFileItems | grunt/helpers/Plugins.js:86-91 | the items of every plugin's `package.json`, plugin after plugin, and nothing is changed |

## Left out

- Regular expressions are not run by an engine. Every pattern here is a union of literal text, plus `([^/]*)` in the nested pattern. Names are taken to hold no RegExp metacharacters, though the code interpolates them unescaped.
- The nested-folder test `/(?:.)+(?:\/less\/plugins)/` is modelled as "`/less/plugins` occurs after at least one character that is not a line terminator". Only the line terminators `\n`, `\r`, U+2028 and U+2029 are special there.
- JsRuntime.ToLower: lowers ASCII letters only, because Unicode case folding is not modelled.
- JsRuntime.LexLess: compares characters as code points. JavaScript compares UTF-16 code units, and the two orders differ only for characters outside the Basic Multilingual Plane.
- LessTask.EmBreakpoint: computes over exact reals, not IEEE doubles. The text printed for an em value is a parameter, because JavaScript number printing is not modelled.
- Screen sizes that are not numbers, which JavaScript would compare and divide loosely, are not modelled. Neither is a partial `screenSize` object, whose missing fields would print as `undefined`.
- LessTask.ParentFolder: takes the already resolved base URL. `path.resolve` and the `.`/`..` normalisation of `path.join` and `path.normalize` are not modelled, so the normalisation of expanded paths is the identity.
- LessTask.PathJoin: collapses runs of slashes and gives `.` for two empty parts, as `path.join` does, but does not resolve `.` and `..` segments.
- LessConfig.TargetOptions: the targets' filter is a pure function, not the stateful `includedFilter`. `LessConfig.IncludedFilter` shows that a call leaves every pattern later calls read as it was, so during one build the filter answers as `LessConfig.IncludedPredicate` of the patterns it starts with; the cache filling is not threaded through the glob expansion.
- `exports.defaults.scriptSafe` is not modelled; only `generateConfigData`, which is left out, reads it.
- Glob expansion (`grunt.file.expand`, `globs.sync`) is a function parameter. `follow: true` and the exact order of `grunt-file-order` are not modelled. The model expands, then filters, then applies the `order` callback.
- The LESS renderer, the `Visitors` plugin, its `flushLog`, `replaceUrls` and the console output other than the `console.error` of a failed render (kept as `BuildOutput.errorLog`) are left out. Rendering is a function from the import text and options to CSS, an optional map, or an error message.
- The `files` entry of the `dev` target is left out, because the Grunt task does not read it.
- LessConfig.SortLessFilePaths: states a permutation with no backslashes, not sortedness. The comparator is not a consistent order (`LessConfig.CompareFilePathsCycle`), so the engine's result for such input is implementation-defined. The model takes the stable insertion order.
- LessConfig.SameFolderOrdersByName: does not cover files directly under the root folder `/`. There `//y.less` and `/x.less` share the folder `/` but the names do not start at the same index.
- `path.parse` is modelled for POSIX only. Windows paths reach the comparator with their backslashes already converted.
- GruntHelpers.GruntConfig.GetExcludedRegExp: the production excludes are pushed onto the stored exclude list. Whether `grunt.config` hands out a copy after template processing is not modelled. Later reads only test whether the list is present, so the answers are the same either way.
- Only one build's configuration is held at a time. The `grunt.config` store, with its other keys and template expansion, is not part of this model.
- GruntHelpers.GetIncludes: the installed folders of each type and the dependency keys of each manifest are maps. A missing type folder is the error `readdirSync` throws. A manifest that cannot be read is absent from the map and skipped. Its logged error is not modelled. The order of the dependency keys is the order of the manifest's object keys, given as a list.
- The sorted plugin paths that `orderFilesByPluginType` takes from the loaded framework are a parameter. The framework and `getSortedPluginPaths` are not part of this model.
- `generateConfigData`, `getFramework`, `getInstalledPluginsByType` and `isPluginInstalled` are left out. They read files, process arguments and `grunt.option` caches, and may exit the process.
- `scriptSafeFilter` is left out, because it only calls `isPluginScriptSafe`.
- PluginCollection.TypeRank: the lookup `types[a.type]` also finds inherited object keys such as `toString`, which would make the comparator return `NaN`. That quirk is not modelled: every type other than the five ranks 0.
- The `framework`, `log` and `warn` options of `Plugins` are not modelled. Neither is the loading of a single `Plugin`, which is a function from its folder to its type, its Adapt flag and its `package.json` items.
- Deduplication of the import list is not claimed: the core glob is also covered by the plugin glob, and nothing removes duplicates.
- `src/core/js/models/notifyModel.js` is not part of this model: it only declares model defaults.
