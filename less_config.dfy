/** The `less` task configuration of grunt/config/less.js: the order in
    which LESS files are imported (`sortLESSFilePaths` with the comparator
    `compareFilePaths`), the filter that keeps only included plugins' files,
    and the `dev` and `compile` targets. */
module LessConfig {
  import opened JsRuntime
  import ArraySort
  import GruntHelpers
  import LiteralRegExp
  import LessTask

  // ---------------------------------------------------------------------
  // path.parse

  /** The two parts of `path.parse(p)` the comparator reads. */
  datatype ParsedPath = ParsedPath(dir: string, name: string)

  /** The last index in `[lo, hi)` holding `c`, or -1. */
  function LastIndexIn(p: string, c: char, lo: nat, hi: nat): (r: int)
    requires lo <= hi <= |p|
    ensures r == -1 || lo <= r < hi
    ensures r == -1 <==> forall k :: lo <= k < hi ==> p[k] != c
    ensures r >= 0 ==> p[r] == c && forall k :: r < k < hi ==> p[k] != c
    decreases hi - lo
  {
    if hi == lo then -1 else if p[hi - 1] == c then hi - 1 else LastIndexIn(p, c, lo, hi - 1)
  }

  /** The index after the last character of `p[lo..]` that is not `/`, or
      `lo` when there is none. */
  function TrimmedEnd(p: string, lo: nat, hi: nat): (r: nat)
    requires lo <= hi <= |p|
    ensures lo <= r <= hi
    ensures forall k :: r <= k < hi ==> p[k] == '/'
    ensures r > lo ==> p[r - 1] != '/'
    decreases hi - lo
  {
    if hi == lo then lo else if p[hi - 1] != '/' then hi else TrimmedEnd(p, lo, hi - 1)
  }

  /** `path.parse(p).dir` and `.name` on POSIX. Trailing slashes are
      ignored; the base is the text after the last slash; the name is the
      base up to its last dot, unless that dot is the base's first
      character, there is none, or the base is `..`. */
  function Parse(p: string): ParsedPath
  {
    if p == "" then ParsedPath("", "")
    else
      var absolute := p[0] == '/';
      var start := if absolute then 1 else 0;
      var end := TrimmedEnd(p, start, |p|);
      var startPart := LastIndexIn(p, '/', start, end) + 1;
      var nameStart := if startPart == 0 && absolute then 1 else startPart;
      var dot := LastIndexIn(p, '.', nameStart, end);
      var noExtension := dot == -1 || dot == nameStart ||
                         (p[nameStart] == '.' && dot == end - 1 && dot == startPart + 1);
      var name := if noExtension then p[nameStart..end] else p[nameStart..dot];
      var dir := if startPart > 0 then p[..startPart - 1] else if absolute then "/" else "";
      ParsedPath(dir, name)
  }

  /** A path whose last slash (not the first character) is followed by a
      name, a last dot, and a non-empty rest: `path.parse` splits it there. */
  lemma ParseAt(p: string, slash: nat, dot: nat)
    requires 0 < slash && slash + 1 < dot && dot + 1 < |p|
    requires p[slash] == '/' && forall k :: slash < k < |p| ==> p[k] != '/'
    requires p[dot] == '.' && forall k :: dot < k < |p| ==> p[k] != '.'
    ensures Parse(p) == ParsedPath(p[..slash], p[slash + 1..dot])
  {
    var start := if p[0] == '/' then 1 else 0;
    assert TrimmedEnd(p, start, |p|) == |p|;
    assert LastIndexIn(p, '/', start, |p|) == slash;
    assert LastIndexIn(p, '.', slash + 1, |p|) == dot;
    assert dot != slash + 1 && dot != |p| - 1;
  }

  /** `path.parse(dir + '/' + name + '.' + ext)`, for a non-empty folder, a
      non-empty name without slashes and a non-empty extension without
      slashes or dots, gives back the folder and the name. */
  lemma ParseFile(dir: string, name: string, ext: string)
    requires dir != "" && name != "" && ext != ""
    requires '/' !in name && '/' !in ext && '.' !in ext
    ensures Parse(dir + "/" + name + "." + ext) == ParsedPath(dir, name)
  {
    var p := dir + "/" + name + "." + ext;
    FileSeparators(dir, name, ext);
    FileParts(dir, name, ext);
    ParseAt(p, |dir|, |dir| + 1 + |name|);
  }

  /** In `dir/name.ext` the slash after the folder is the last slash and
      the dot after the name is the last dot. */
  lemma FileSeparators(dir: string, name: string, ext: string)
    requires '/' !in name && '/' !in ext && '.' !in ext
    ensures var p, slash, dot := dir + "/" + name + "." + ext, |dir|, |dir| + 1 + |name|;
      && |p| == dot + 1 + |ext|
      && p[slash] == '/' && p[dot] == '.'
      && (forall k :: slash < k < |p| ==> p[k] != '/')
      && (forall k :: dot < k < |p| ==> p[k] != '.')
  {
    var p := dir + "/" + name + "." + ext;
    var slash, dot := |dir|, |dir| + 1 + |name|;
    assert p == (dir + "/") + (name + "." + ext);
    forall k | slash < k < |p|
      ensures p[k] != '/' && (dot < k ==> p[k] != '.')
    {
      if k < dot {
        assert p[k] == name[k - slash - 1];
      } else if k > dot {
        assert p[k] == ext[k - dot - 1];
      }
    }
  }

  /** The folder and the name are where `dir/name.ext` holds them. */
  lemma FileParts(dir: string, name: string, ext: string)
    ensures var p, slash, dot := dir + "/" + name + "." + ext, |dir|, |dir| + 1 + |name|;
      p[..slash] == dir && p[slash + 1..dot] == name
  {
    var p := dir + "/" + name + "." + ext;
    assert p == dir + ("/" + name + "." + ext);
    assert p[|dir| + 1..] == name + "." + ext;
  }

  // ---------------------------------------------------------------------
  // The comparators

  /** `alphanumericOrder(a, b)`: `a > b ? 1 : a < b ? -1 : 0` on strings. */
  function AlphanumericOrder(a: string, b: string): (r: int)
    ensures r == -1 <==> LexLess(a, b)
    ensures r == 1 <==> LexLess(b, a)
    ensures r == 0 <==> a == b
  {
    LexLessTotal(a, b);
    LexLessAsymmetric(a, b);
    LexLessIrreflexive(a);
    if LexLess(b, a) then 1 else if LexLess(a, b) then -1 else 0
  }

  /** `lengthOrder(a, b)`: the sign of the difference of the lengths. */
  function LengthOrder(a: string, b: string): (r: int)
    ensures r == -1 <==> |a| < |b|
    ensures r == 1 <==> |a| > |b|
    ensures r == 0 <==> |a| == |b|
  {
    if |a| > |b| then 1 else if |a| < |b| then -1 else 0
  }

  /** `compareFilePaths(a, b)`: paths in different folders, or whose names
      do not start one another, compare alphanumerically; otherwise the
      shorter name comes first. */
  function CompareFilePaths(a: string, b: string): (r: int)
    ensures -1 <= r <= 1
  {
    var pa, pb := Parse(a), Parse(b);
    if pa.dir != pb.dir then AlphanumericOrder(a, b)
    else if !(pa.name <= pb.name) && !(pb.name <= pa.name) then AlphanumericOrder(a, b)
    else LengthOrder(pa.name, pb.name)
  }

  /** The comparator is antisymmetric and gives 0 for a path and itself. */
  lemma CompareFilePathsAntisymmetric(a: string, b: string)
    ensures CompareFilePaths(a, b) == -CompareFilePaths(b, a)
    ensures CompareFilePaths(a, a) == 0
  {
  }

  /** In one folder, a file whose name starts another file's name comes
      before it, whatever the alphabet says: a base file is imported before
      the files that extend its name. */
  lemma NamePrefixComesFirst(a: string, b: string)
    requires Parse(a).dir == Parse(b).dir
    requires Parse(a).name <= Parse(b).name && Parse(a).name != Parse(b).name
    ensures CompareFilePaths(a, b) == -1
  {
    assert |Parse(a).name| < |Parse(b).name|;
  }

  /** Outside that case, the order is the alphanumeric order of the whole
      paths. */
  lemma UnrelatedNamesCompareAlphanumerically(a: string, b: string)
    requires Parse(a).dir != Parse(b).dir ||
             (!(Parse(a).name <= Parse(b).name) && !(Parse(b).name <= Parse(a).name))
    ensures CompareFilePaths(a, b) == -1 <==> LexLess(a, b)
    ensures CompareFilePaths(a, b) == 0 <==> a == b
  {
  }

  /** The text in front of a name in folder `dir`: nothing for the
      current folder, the folder and a slash otherwise. */
  function FolderPrefix(dir: string): string
  {
    if dir == "" then "" else dir + "/"
  }

  /** The parsed folder and name start the path, except for files
      directly under the root `/`, which `//x` and `/x` share. */
  lemma ParseNamePrefix(p: string)
    requires Parse(p).dir != "/"
    ensures FolderPrefix(Parse(p).dir) + Parse(p).name <= p
  {
    if p != "" {
      var absolute := p[0] == '/';
      var start := if absolute then 1 else 0;
      var end := TrimmedEnd(p, start, |p|);
      var startPart := LastIndexIn(p, '/', start, end) + 1;
      var nameStart := if startPart == 0 && absolute then 1 else startPart;
      var dot := LastIndexIn(p, '.', nameStart, end);
      var noExtension := dot == -1 || dot == nameStart ||
                         (p[nameStart] == '.' && dot == end - 1 && dot == startPart + 1);
      var nameEnd := if noExtension then end else dot;
      var dir := if startPart > 0 then p[..startPart - 1] else if absolute then "/" else "";
      assert Parse(p) == ParsedPath(dir, p[nameStart..nameEnd]);
      if startPart > 0 {
        FolderPrefixOfSlash(p, startPart);
      } else {
        assert dir == "" && nameStart == 0;
      }
      PrefixThroughName(p, dir, nameStart, nameEnd);
    }
  }

  /** A folder that ends just before a slash, with that slash, starts the
      path. */
  lemma FolderPrefixOfSlash(p: string, startPart: nat)
    requires 1 < startPart <= |p| && p[startPart - 1] == '/'
    ensures FolderPrefix(p[..startPart - 1]) == p[..startPart]
  {
    assert p[..startPart - 1] + "/" == p[..startPart];
  }

  /** A folder prefix that ends where a name starts, followed by that
      name, starts the path. */
  lemma PrefixThroughName(p: string, dir: string, nameStart: nat, nameEnd: nat)
    requires nameStart <= nameEnd <= |p|
    requires FolderPrefix(dir) == p[..nameStart]
    ensures FolderPrefix(dir) + p[nameStart..nameEnd] <= p
  {
    assert FolderPrefix(dir) + p[nameStart..nameEnd] == p[..nameEnd];
  }

  /** Within one folder (other than the root) the comparator orders two
      files as their names are ordered. */
  lemma SameFolderOrdersByName(a: string, b: string)
    requires Parse(a).dir == Parse(b).dir && Parse(a).dir != "/"
    requires Parse(a).name != Parse(b).name
    ensures CompareFilePaths(a, b) == -1 <==> LexLess(Parse(a).name, Parse(b).name)
    ensures CompareFilePaths(a, b) == 1 <==> LexLess(Parse(b).name, Parse(a).name)
  {
    var na, nb := Parse(a).name, Parse(b).name;
    LexLessAsymmetric(na, nb);
    if na <= nb {
      LexLessProperPrefix(na, nb);
      assert CompareFilePaths(a, b) == LengthOrder(na, nb) == -1;
    } else if nb <= na {
      LexLessProperPrefix(nb, na);
      assert CompareFilePaths(a, b) == LengthOrder(na, nb) == 1;
    } else {
      assert CompareFilePaths(a, b) == AlphanumericOrder(a, b);
      ParseNamePrefix(a);
      ParseNamePrefix(b);
      NamesDecideWholePaths(a, b, FolderPrefix(Parse(a).dir), na, nb);
    }
  }

  /** Two paths that start with one folder and then two names, neither of
      which starts the other, are in the order of those names. */
  lemma NamesDecideWholePaths(a: string, b: string, folder: string, na: string, nb: string)
    requires folder + na <= a && folder + nb <= b
    requires !(na <= nb) && !(nb <= na)
    ensures LexLess(a, b) == LexLess(na, nb)
    ensures LexLess(b, a) == LexLess(nb, na)
  {
    var x, y := a[|folder + na|..], b[|folder + nb|..];
    assert a == folder + (na + x);
    assert b == folder + (nb + y);
    LexLessCommonPrefix(folder, na + x, nb + y);
    LexLessCommonPrefix(folder, nb + y, na + x);
    var k := FirstDifference(na, nb);
    LexLessAtDifference(na, nb, x, y, k);
    LexLessAtDifference(nb, na, y, x, k);
  }

  // Three paths in one folder `d`: a base file, a file that extends its
  // name, and a file in a sub-folder whose name also extends it.
  const CycleFolder := "d"
  const CycleName := "button"
  const CycleExt := "less"
  /** `button-group` */
  const ExtendedName := CycleName + "-group"
  /** `d/button-h` */
  const NestedFolder := CycleFolder + "/" + CycleName + "-h"
  /** `d/button.less` */
  const BasePath := CycleFolder + "/" + CycleName + "." + CycleExt
  /** `d/button-group.less` */
  const ExtendedPath := CycleFolder + "/" + ExtendedName + "." + CycleExt
  /** `d/button-h/a.less` */
  const NestedPath := NestedFolder + "/" + "a" + "." + CycleExt

  /** `button.less` comes before `button-group.less` in the same folder,
      although it is alphanumerically after it. */
  lemma BaseFileBeforeExtendedName()
    ensures CompareFilePaths(BasePath, ExtendedPath) == -1
    ensures CompareFilePaths(ExtendedPath, BasePath) == 1
    ensures LexLess(ExtendedPath, BasePath)
  {
    var p := CycleFolder + "/" + CycleName;
    assert BasePath == p + ("." + CycleExt);
    assert ExtendedPath == p + ("-group" + "." + CycleExt);
    LexLessCommonPrefix(p, "-group" + "." + CycleExt, "." + CycleExt);
    ParseFile(CycleFolder, CycleName, CycleExt);
    ParseFile(CycleFolder, ExtendedName, CycleExt);
    assert CycleName <= ExtendedName && CycleName != ExtendedName;
    assert |CycleName| < |ExtendedName|;
  }

  /** `button-group.less` comes before `button-h/a.less`: different
      folders, so alphanumerically. */
  lemma ExtendedBeforeNested()
    ensures CompareFilePaths(ExtendedPath, NestedPath) == -1
  {
    var p := CycleFolder + "/" + CycleName + "-";
    assert ExtendedPath == p + ("group" + "." + CycleExt);
    assert NestedPath == p + ("h" + "/" + "a" + "." + CycleExt);
    LexLessCommonPrefix(p, "group" + "." + CycleExt, "h" + "/" + "a" + "." + CycleExt);
    ParseFile(CycleFolder, ExtendedName, CycleExt);
    ParseFile(NestedFolder, "a", CycleExt);
    assert NestedFolder != CycleFolder;
  }

  /** `button-h/a.less` comes before `button.less`: different folders, so
      alphanumerically. */
  lemma NestedBeforeBase()
    ensures CompareFilePaths(NestedPath, BasePath) == -1
  {
    var p := CycleFolder + "/" + CycleName;
    assert NestedPath == p + ("-h" + "/" + "a" + "." + CycleExt);
    assert BasePath == p + ("." + CycleExt);
    LexLessCommonPrefix(p, "-h" + "/" + "a" + "." + CycleExt, "." + CycleExt);
    ParseFile(NestedFolder, "a", CycleExt);
    ParseFile(CycleFolder, CycleName, CycleExt);
    assert NestedFolder != CycleFolder;
  }

  /** The comparator is not a consistent order: three paths compare in a
      cycle, so the order `sort` produces depends on the engine. */
  lemma CompareFilePathsCycle()
    ensures CompareFilePaths(BasePath, ExtendedPath) == -1
    ensures CompareFilePaths(ExtendedPath, NestedPath) == -1
    ensures CompareFilePaths(NestedPath, BasePath) == -1
  {
    BaseFileBeforeExtendedName();
    ExtendedBeforeNested();
    NestedBeforeBase();
  }

  // ---------------------------------------------------------------------
  // sortLESSFilePaths and includedFilter

  function ConvertAll(paths: seq<string>): (r: seq<string>)
    ensures |r| == |paths|
    ensures forall k :: 0 <= k < |paths| ==> r[k] == ConvertSlashes(paths[k])
  {
    seq(|paths|, k requires 0 <= k < |paths| => ConvertSlashes(paths[k]))
  }

  /** `sortLESSFilePaths(filepaths)`: the paths with forward slashes, sorted
      with `compareFilePaths`. */
  function SortLessFilePaths(filepaths: seq<string>): (r: seq<string>)
    ensures multiset(r) == multiset(ConvertAll(filepaths))
    ensures forall k :: 0 <= k < |r| ==> '\\' !in r[k]
  {
    var converted := ConvertAll(filepaths);
    var r := ArraySort.Sort(converted, CompareFilePaths);
    assert forall k :: 0 <= k < |r| ==> r[k] in multiset(converted);
    r
  }

  /** Sorting puts a base file before the file that extends its name,
      whatever order they were found in. */
  lemma SortLessFilePathsExample()
    ensures SortLessFilePaths([ExtendedPath, BasePath]) == [BasePath, ExtendedPath]
  {
    ConvertSlashesUnchanged(BasePath);
    ConvertSlashesUnchanged(ExtendedPath);
    var converted := ConvertAll([ExtendedPath, BasePath]);
    assert converted == [ExtendedPath, BasePath];
    BaseFileBeforeExtendedName();
    assert converted[..1] == [ExtendedPath];
    assert ArraySort.Sort(converted[..1], CompareFilePaths) == [ExtendedPath];
  }

  /** `includedFilter(filepath)`: the helpers' `includedFilter`, which is
      `isPathIncluded`. It leaves the patterns the configuration serves as
      they were, so every call of one build answers by the same
      `IncludedPredicate`. */
  method IncludedFilter(config: GruntHelpers.GruntConfig, filepath: string) returns (r: bool)
    modifies config`includedRegExp, config`excludedRegExp, config`nestedIncludedRegExp, config`excludes
    ensures r == GruntHelpers.Decision(ConvertSlashes(filepath), old(config.includes).Some?,
                                       old(config.ExcludesConfigured()), old(config.CurrentIncluded()),
                                       old(config.CurrentExcluded()), old(config.CurrentNested()))
    ensures config.ExcludesConfigured() == old(config.ExcludesConfigured())
    ensures config.CurrentIncluded() == old(config.CurrentIncluded())
    ensures config.CurrentExcluded() == old(config.CurrentExcluded())
    ensures config.CurrentNested() == old(config.CurrentNested())
  {
    r := config.IsPathIncluded(filepath);
  }

  /** Asking the filter about the same path twice gives the same answer,
      although the first call may fill the pattern caches. */
  method IncludedFilterTwice(config: GruntHelpers.GruntConfig, filepath: string) returns (first: bool, second: bool)
    modifies config`includedRegExp, config`excludedRegExp, config`nestedIncludedRegExp, config`excludes
    ensures first == second
  {
    ghost var hasIncludes, hasExcludes := config.includes.Some?, config.ExcludesConfigured();
    ghost var included, excluded, nested := config.CurrentIncluded(), config.CurrentExcluded(), config.CurrentNested();
    first := IncludedFilter(config, filepath);
    assert config.includes.Some? == hasIncludes && config.ExcludesConfigured() == hasExcludes;
    assert config.CurrentIncluded() == included && config.CurrentExcluded() == excluded;
    assert config.CurrentNested() == nested;
    second := IncludedFilter(config, filepath);
  }

  /** The filter of one build as a function: the decision chain of
      `isPathIncluded` on the slash-converted path. */
  function IncludedPredicate(hasIncludes: bool, hasExcludes: bool, included: LiteralRegExp.Pattern,
                             excluded: LiteralRegExp.Pattern, nested: LiteralRegExp.Pattern): string -> bool
  {
    ConvertedFirst(q => GruntHelpers.Decision(q, hasIncludes, hasExcludes, included, excluded, nested))
  }

  /** A decision taken on the slash-converted path. */
  function ConvertedFirst(decide: string -> bool): string -> bool
  {
    p => decide(ConvertSlashes(p))
  }

  /** A filter that gives a path the same answer with either kind of slash. */
  ghost predicate ReadsEitherSlash(keep: string -> bool)
  {
    forall p :: keep(ConvertSlashes(p)) == keep(p)
  }

  /** Converting slashes before deciding makes the kind of slash irrelevant,
      which is why `includedFilter` reads either kind alike. */
  lemma ConvertedFirstEitherSlash(decide: string -> bool)
    ensures ReadsEitherSlash(ConvertedFirst(decide))
  {
    forall p ensures ConvertedFirst(decide)(ConvertSlashes(p)) == ConvertedFirst(decide)(p) {
      ConvertSlashesIdempotent(p);
    }
  }

  /** Sorting returns only slash-converted input paths, so it keeps every
      verdict of a filter that reads either kind of slash alike. */
  lemma SortKeepsFilter(keep: string -> bool)
    requires ReadsEitherSlash(keep)
    ensures LessTask.OrderKeepsFilter(SortLessFilePaths, keep)
  {
    forall files: seq<string>, f | (forall g :: g in files ==> keep(g)) && f in SortLessFilePaths(files)
      ensures keep(f)
    {
      var converted := ConvertAll(files);
      assert f in multiset(converted);
      var k :| 0 <= k < |converted| && converted[k] == f;
      assert files[k] in files;
    }
  }

  // ---------------------------------------------------------------------
  // The dev and compile targets

  /** The core plugin's LESS files. */
  const CoreGlob := "<%= sourcedir %>/node_modules/adapt-contrib-core/**/*.less"
  /** Every plugin's LESS files. */
  const PluginsGlob := "<%= sourcedir %>/node_modules/adapt-*/**/*.less"

  /** The options shared by both targets; the `<%= ... %>` templates are
      left for grunt to expand. */
  function TargetOptions(filter: string -> bool, sourcemaps: bool, compress: bool): LessTask.LessOptions
  {
    LessTask.LessOptions(
      baseUrl := "<%= sourcedir %>",
      mandatory := Some([CoreGlob]),
      src := Some([PluginsGlob]),
      config := "<%= outputdir %><%= coursedir %>/config.<%= jsonext %>",
      sourcemaps := sourcemaps,
      compress := compress,
      dest := "<%= outputdir %>",
      cssFilename := "adapt.css",
      mapFilename := "adapt.css.map",
      filter := Some(filter),
      order := Some(SortLessFilePaths))
  }

  /** The `dev` target: source maps on, no compression. */
  function DevOptions(filter: string -> bool): (r: LessTask.LessOptions)
    ensures r.sourcemaps && !r.compress
    ensures LessTask.MapPath(r) != LessTask.CssPath(r)
  {
    TargetPathsDiffer(filter, true, false);
    TargetOptions(filter, true, false)
  }

  /** The `compile` target: no source maps, compressed. */
  function CompileOptions(filter: string -> bool): (r: LessTask.LessOptions)
    ensures !r.sourcemaps && r.compress
    ensures LessTask.MapPath(r) != LessTask.CssPath(r)
  {
    TargetPathsDiffer(filter, false, true);
    TargetOptions(filter, false, true)
  }

  /** The source map is never written over the stylesheet: both sit in
      the same folder under different names. */
  lemma TargetPathsDiffer(filter: string -> bool, sourcemaps: bool, compress: bool)
    ensures var options := TargetOptions(filter, sourcemaps, compress);
      LessTask.MapPath(options) != LessTask.CssPath(options)
  {
    var options := TargetOptions(filter, sourcemaps, compress);
    assert '/' !in options.cssFilename && '/' !in options.mapFilename;
    LessTask.NamesInOneFolder(options.dest, options.cssFilename, options.mapFilename);
  }

  /** Both targets print the screen-size variables and import the core
      plugin's files before the other plugins' files, which only they
      filter. */
  lemma TargetsImportCoreFirst(filter: string -> bool, sourcemaps: bool, compress: bool,
                               file: LessTask.ConfigFile, fmt: real -> string,
                               cwd: string, expand: string -> seq<string>)
    ensures var options := TargetOptions(filter, sourcemaps, compress);
      && LessTask.Header(options, file, fmt) == LessTask.BreakpointVariables(LessTask.ScreenSizeOf(file), fmt)
      && LessTask.ImportedFiles(options, cwd, expand)
         == SortLessFilePaths(expand(LessTask.PathJoin(cwd, CoreGlob)))
          + SortLessFilePaths(LessTask.Filter(expand(LessTask.PathJoin(cwd, PluginsGlob)), filter))
  {
    var options := TargetOptions(filter, sourcemaps, compress);
    LessTask.ExpansionOfOne(CoreGlob, cwd, expand, None, options.order);
    LessTask.ExpansionOfOne(PluginsGlob, cwd, expand, options.filter, options.order);
  }

  /** Every plugin file either target imports from its `src` glob passes
      `includedFilter`, although the sort order rewrites its slashes. */
  lemma TargetSourcesIncluded(hasIncludes: bool, hasExcludes: bool, included: LiteralRegExp.Pattern,
                              excluded: LiteralRegExp.Pattern, nested: LiteralRegExp.Pattern,
                              sourcemaps: bool, compress: bool,
                              cwd: string, expand: string -> seq<string>, f: string)
    requires var options := TargetOptions(IncludedPredicate(hasIncludes, hasExcludes, included, excluded, nested),
                                          sourcemaps, compress);
      f in LessTask.ExpansionOfAll(OrEmpty(options.src), cwd, expand, options.filter, options.order)
    ensures GruntHelpers.Decision(ConvertSlashes(f), hasIncludes, hasExcludes, included, excluded, nested)
  {
    var keep := IncludedPredicate(hasIncludes, hasExcludes, included, excluded, nested);
    ConvertedFirstEitherSlash(q => GruntHelpers.Decision(q, hasIncludes, hasExcludes, included, excluded, nested));
    SortKeepsFilter(keep);
    var options := TargetOptions(keep, sourcemaps, compress);
    LessTask.SourceFilesPassFilter(OrEmpty(options.src), cwd, expand, keep, options.order, f);
    assert keep(f);
  }
}
