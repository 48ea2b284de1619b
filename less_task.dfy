/** The `less` multi-task of grunt/tasks/less.js: the LESS source it
    assembles (the screen-size variables, then one `@import` per expanded
    file), the stale source maps it removes, and what it writes once the
    LESS compiler calls back. The compiler, the file system, glob expansion
    and the number printing are parameters. */
module LessTask {
  import opened JsRuntime
  import ArraySort

  /** The course's `screenSize` setting, in pixels or ems. */
  datatype ScreenSize = ScreenSize(small: real, medium: real, large: real)

  /** The screen sizes used when the course configuration gives none. */
  const DefaultScreenSize: ScreenSize := ScreenSize(520.0, 760.0, 900.0)

  /** `screensizeEmThreshold`: larger values are taken to be pixels. */
  const ScreenSizeEmThreshold: real := 300.0

  /** `baseFontSize`: pixels per em. */
  const BaseFontSize: real := 16.0

  /** The course configuration file as the Grunt task reads it. `Unreadable`
      stands for every case the Grunt task's `try` swallows: a missing file,
      text that is not JSON, and JSON `null`. */
  datatype ConfigFile = Unreadable | Parsed(screenSize: Option<ScreenSize>)

  /** The Grunt task's options (see grunt/config/less.js). An empty `config`
      string is falsy. `filter` and `order` are handed to the glob
      expansion. */
  datatype LessOptions = LessOptions(
    baseUrl: string,
    mandatory: Option<seq<string>>,
    src: Option<seq<string>>,
    config: string,
    sourcemaps: bool,
    compress: bool,
    dest: string,
    cssFilename: string,
    mapFilename: string,
    filter: Option<string -> bool>,
    order: Option<seq<string> -> seq<string>>)

  // ---------------------------------------------------------------------
  // Screen-size variables

  /** `configjson.screenSize || screenSize`, or the defaults when reading
      or parsing throws. */
  function ScreenSizeOf(file: ConfigFile): ScreenSize
  {
    if file.Parsed? && file.screenSize.Some? then file.screenSize.value else DefaultScreenSize
  }

  /** A breakpoint above the threshold is taken as pixels and converted to
      ems at the base font size; otherwise it is taken as ems already. */
  function EmBreakpoint(v: real): (r: real)
    ensures v > ScreenSizeEmThreshold ==> r * BaseFontSize == v
    ensures v <= ScreenSizeEmThreshold ==> r == v
    ensures v > ScreenSizeEmThreshold ==> r > ScreenSizeEmThreshold / BaseFontSize
  {
    if v > ScreenSizeEmThreshold then v / BaseFontSize else v
  }

  /** The three `@adapt-device-*` variable lines. `fmt` is JavaScript's
      conversion of a number to text. */
  function BreakpointVariables(size: ScreenSize, fmt: real -> string): string
  {
    "\n@adapt-device-large: " + fmt(EmBreakpoint(size.large)) + "em;" +
    "\n@adapt-device-medium: " + fmt(EmBreakpoint(size.medium)) + "em;" +
    "\n@adapt-device-small: " + fmt(EmBreakpoint(size.small)) + "em;\n"
  }

  /** What precedes the imports: the variables, when the Grunt task has both a
      `src` list and a `config` path, and nothing otherwise. */
  function Header(options: LessOptions, file: ConfigFile, fmt: real -> string): string
  {
    if options.src.Some? && options.config != "" then BreakpointVariables(ScreenSizeOf(file), fmt) else ""
  }

  /** Without a readable `screenSize`, the default 900, 760 and 520 px
      give 56.25, 47.5 and 32.5 em. */
  lemma DefaultBreakpoints(options: LessOptions, file: ConfigFile, fmt: real -> string)
    requires options.src.Some? && options.config != ""
    requires file.Unreadable? || file.screenSize.None?
    ensures Header(options, file, fmt) ==
      "\n@adapt-device-large: " + fmt(56.25) + "em;" +
      "\n@adapt-device-medium: " + fmt(47.5) + "em;" +
      "\n@adapt-device-small: " + fmt(32.5) + "em;\n"
  {
    assert EmBreakpoint(900.0) == 56.25;
    assert EmBreakpoint(760.0) == 47.5;
    assert EmBreakpoint(520.0) == 32.5;
  }

  // ---------------------------------------------------------------------
  // Paths

  /** The last index of `/` in `s`, or -1. */
  function LastSlash(s: string): (r: int)
    ensures -1 <= r < |s|
    ensures r >= 0 ==> s[r] == '/'
    ensures forall k :: r < k < |s| ==> s[k] != '/'
  {
    if s == [] then -1
    else if s[|s| - 1] == '/' then |s| - 1
    else LastSlash(s[..|s| - 1])
  }

  /** `path.join(resolved, '../')` for a resolved (absolute, trailing-slash
      free) POSIX path: its parent folder, ending in `/`. */
  function ParentFolder(resolved: string): (r: string)
    requires resolved != [] && resolved[0] == '/'
    ensures r <= resolved && r != [] && r[|r| - 1] == '/'
    ensures forall k :: |r| <= k < |resolved| ==> resolved[k] != '/'
  {
    resolved[..LastSlash(resolved) + 1]
  }

  /** `rootPath`: the parent of the resolved `baseUrl`, with backslashes
      made forward slashes. Imports are written relative to it. */
  function RootPath(resolvedBaseUrl: string): string
    requires resolvedBaseUrl != [] && resolvedBaseUrl[0] == '/'
  {
    ConvertSlashes(ParentFolder(resolvedBaseUrl))
  }

  /** No two slashes in a row. */
  predicate SingleSlashes(s: string)
  {
    forall k :: 0 <= k < |s| - 1 ==> !(s[k] == '/' && s[k + 1] == '/')
  }

  /** The characters of `s` other than `/`, in order. */
  function NonSlashes(s: string): string
  {
    if s == [] then [] else (if s[0] == '/' then [] else [s[0]]) + NonSlashes(s[1..])
  }

  lemma {:induction false} NonSlashesAppend(x: string, y: string)
    ensures NonSlashes(x + y) == NonSlashes(x) + NonSlashes(y)
  {
    if x == [] {
      assert x + y == y;
    } else {
      var h: string := if x[0] == '/' then [] else [x[0]];
      assert (x + y)[0] == x[0] && (x + y)[1..] == x[1..] + y;
      NonSlashesAppend(x[1..], y);
      calc {
        NonSlashes(x + y);
        h + NonSlashes(x[1..] + y);
        h + (NonSlashes(x[1..]) + NonSlashes(y));
        { ArraySort.SeqAssociative(h, NonSlashes(x[1..]), NonSlashes(y)); }
        (h + NonSlashes(x[1..])) + NonSlashes(y);
        NonSlashes(x) + NonSlashes(y);
      }
    }
  }

  /** A text without slashes keeps all its characters. */
  lemma {:induction false} NonSlashesOfName(s: string)
    requires '/' !in s
    ensures NonSlashes(s) == s
  {
    if s != [] {
      assert s[0] != '/' && '/' !in s[1..];
      NonSlashesOfName(s[1..]);
      assert [s[0]] + s[1..] == s;
    }
  }

  /** The part of `path.normalize` that replaces each run of slashes with a
      single one. */
  function CollapseSlashes(s: string): (r: string)
    ensures |r| <= |s|
    decreases |s|
  {
    if |s| <= 1 then s
    else if s[0] == '/' && s[1] == '/' then CollapseSlashes(s[1..])
    else [s[0]] + CollapseSlashes(s[1..])
  }

  /** Collapsing leaves no slash run, removes only slashes, and keeps the
      first and the last character. */
  lemma {:induction false} CollapseSlashesMeaning(s: string)
    ensures SingleSlashes(CollapseSlashes(s))
    ensures NonSlashes(CollapseSlashes(s)) == NonSlashes(s)
    ensures s != [] ==> (CollapseSlashes(s) != [] &&
      CollapseSlashes(s)[0] == s[0] && CollapseSlashes(s)[|CollapseSlashes(s)| - 1] == s[|s| - 1])
    decreases |s|
  {
    if |s| > 1 {
      var t := CollapseSlashes(s[1..]);
      CollapseSlashesMeaning(s[1..]);
      assert NonSlashes(s) == (if s[0] == '/' then [] else [s[0]]) + NonSlashes(s[1..]);
      if !(s[0] == '/' && s[1] == '/') {
        var r := [s[0]] + t;
        assert r[1..] == t;
        assert NonSlashes(r) == (if s[0] == '/' then [] else [s[0]]) + NonSlashes(t);
        forall k | 0 <= k < |r| - 1
          ensures !(r[k] == '/' && r[k + 1] == '/')
        {
          if k > 0 {
            assert r[k] == t[k - 1] && r[k + 1] == t[k];
          }
        }
      }
    }
  }

  /** A text with single slashes only is already collapsed. */
  lemma {:induction false} CollapseUnchanged(s: string)
    requires SingleSlashes(s)
    ensures CollapseSlashes(s) == s
    decreases |s|
  {
    if |s| > 1 {
      assert SingleSlashes(s[1..]) by {
        forall k | 0 <= k < |s[1..]| - 1
          ensures !(s[1..][k] == '/' && s[1..][k + 1] == '/')
        {
          assert s[1..][k] == s[k + 1] && s[1..][k + 1] == s[k + 2];
        }
      }
      CollapseUnchanged(s[1..]);
      assert s == [s[0]] + s[1..];
    }
  }

  /** Collapsing `x + y`, where `x` has single slashes and no slash run
      crosses the boundary, keeps `x` as it is. */
  lemma {:induction false} CollapseAfter(x: string, y: string)
    requires SingleSlashes(x)
    requires x != [] && y != [] ==> !(x[|x| - 1] == '/' && y[0] == '/')
    ensures CollapseSlashes(x + y) == x + CollapseSlashes(y)
    decreases |x|
  {
    if x == [] {
      assert x + y == y;
    } else if y == [] {
      assert x + y == x;
      CollapseUnchanged(x);
    } else {
      var s := x + y;
      assert s[1..] == x[1..] + y;
      if |x| == 1 {
        assert s[0] == x[0] && s[1] == y[0];
        assert x[1..] + y == y;
      } else {
        assert s[0] == x[0] && s[1] == x[1];
        assert SingleSlashes(x[1..]) by {
          forall k | 0 <= k < |x[1..]| - 1
            ensures !(x[1..][k] == '/' && x[1..][k + 1] == '/')
          {
            assert x[1..][k] == x[k + 1] && x[1..][k + 1] == x[k + 2];
          }
        }
        CollapseAfter(x[1..], y);
        ArraySort.SeqAssociative([x[0]], x[1..], CollapseSlashes(y));
        assert [x[0]] + x[1..] == x;
      }
    }
  }

  /** A leading run of slashes collapses to one. */
  lemma CollapseLeading(y: string)
    requires y != [] && y[0] == '/'
    ensures CollapseSlashes("/" + y) == CollapseSlashes(y)
  {
    assert ("/" + y)[1..] == y;
  }

  /** `path.join(a, b)`: the non-empty arguments joined with `/`, every run
      of slashes collapsed to one, and `.` when both are empty. The
      removal of `.` and `..` segments is not modelled. */
  function PathJoin(a: string, b: string): string
  {
    if a == [] && b == [] then "."
    else if a == [] then CollapseSlashes(b)
    else if b == [] then CollapseSlashes(a)
    else CollapseSlashes(a + "/" + b)
  }

  /** The joined path is never empty and has no slash run; apart from
      slashes it is the folder followed by the name. */
  lemma PathJoinShape(a: string, b: string)
    ensures PathJoin(a, b) != []
    ensures SingleSlashes(PathJoin(a, b))
    ensures a == [] && b == [] ==> PathJoin(a, b) == "."
    ensures a != [] || b != [] ==> NonSlashes(PathJoin(a, b)) == NonSlashes(a) + NonSlashes(b)
  {
    if a == [] && b == [] {
      assert SingleSlashes(".");
    } else if a == [] {
      CollapseSlashesMeaning(b);
      assert [] + NonSlashes(b) == NonSlashes(b);
    } else if b == [] {
      CollapseSlashesMeaning(a);
      assert NonSlashes(a) + [] == NonSlashes(a);
    } else {
      CollapseSlashesMeaning(a + "/" + b);
      NonSlashesAppend(a, "/");
      NonSlashesAppend(a + "/", b);
      assert NonSlashes("/") == [];
      assert NonSlashes(a) + [] == NonSlashes(a);
    }
  }

  /** A slice of a text with single slashes has single slashes. */
  /** Two file names of different lengths joined to the same folder give
      different paths. */
  lemma NamesInOneFolder(folder: string, name1: string, name2: string)
    requires name1 != [] && name2 != []
    requires '/' !in name1 && '/' !in name2 && |name1| != |name2|
    ensures PathJoin(folder, name1) != PathJoin(folder, name2)
  {
    PathJoinShape(folder, name1);
    PathJoinShape(folder, name2);
    NonSlashesOfName(name1);
    NonSlashesOfName(name2);
    assert |NonSlashes(PathJoin(folder, name1))| != |NonSlashes(PathJoin(folder, name2))|;
  }

  lemma SingleSlashesSlice(s: string, lo: nat, hi: nat)
    requires lo <= hi <= |s| && SingleSlashes(s)
    ensures SingleSlashes(s[lo..hi])
  {
    forall k | 0 <= k < hi - lo - 1
      ensures !(s[lo..hi][k] == '/' && s[lo..hi][k + 1] == '/')
    {
      assert s[lo..hi][k] == s[lo + k] && s[lo..hi][k + 1] == s[lo + k + 1];
    }
  }

  /** A slash in front of a name that does not start with one. */
  lemma SingleSlashesAfterSlash(name: string)
    requires SingleSlashes(name) && (name != [] ==> name[0] != '/')
    ensures SingleSlashes("/" + name)
  {
    forall k | 0 <= k < |name|
      ensures !(("/" + name)[k] == '/' && ("/" + name)[k + 1] == '/')
    {
      if k > 0 {
        assert ("/" + name)[k] == name[k - 1] && ("/" + name)[k + 1] == name[k];
      }
    }
  }

  /** One to three slashes in front of a name collapse to one. */
  lemma CollapseSlashRun(run: string, name: string)
    requires run == "/" || run == "//" || run == "///"
    requires SingleSlashes(name) && (name != [] ==> name[0] != '/')
    ensures CollapseSlashes(run + name) == "/" + name
  {
    SingleSlashesAfterSlash(name);
    CollapseUnchanged("/" + name);
    if run == "//" {
      DoubleSlash(name);
    } else if run == "///" {
      assert run + name == "/" + ("//" + name);
      DoubleSlash(name);
      CollapseLeading("//" + name);
    }
  }

  lemma DoubleSlash(name: string)
    ensures CollapseSlashes("//" + name) == CollapseSlashes("/" + name)
  {
    assert "//" + name == "/" + ("/" + name);
    CollapseLeading("/" + name);
  }

  /** Joining a folder and a name, each with single slashes, puts exactly
      one `/` between them, whether the folder ends in a slash, the name
      starts with one, both, or neither. */
  lemma PathJoinOneSlash(a: string, b: string)
    requires a != [] && b != [] && SingleSlashes(a) && SingleSlashes(b)
    ensures var folder := if a[|a| - 1] == '/' then a[..|a| - 1] else a;
            var name := if b[0] == '/' then b[1..] else b;
      PathJoin(a, b) == folder + "/" + name
  {
    FolderPart(a);
    NamePart(b);
    var trailing := if a[|a| - 1] == '/' then "/" else "";
    var leading := if b[0] == '/' then "/" else "";
    JoinAcrossSlashes(if a[|a| - 1] == '/' then a[..|a| - 1] else a, trailing,
                      leading, if b[0] == '/' then b[1..] else b);
  }

  /** A folder is its part before an optional trailing slash, which does
      not itself end in a slash. */
  lemma FolderPart(a: string)
    requires a != [] && SingleSlashes(a)
    ensures var folder := if a[|a| - 1] == '/' then a[..|a| - 1] else a;
      && a == folder + (if a[|a| - 1] == '/' then "/" else "")
      && SingleSlashes(folder) && (folder != [] ==> folder[|folder| - 1] != '/')
  {
    if a[|a| - 1] == '/' {
      SingleSlashesSlice(a, 0, |a| - 1);
      assert a == a[..|a| - 1] + "/";
      if |a| > 1 {
        assert a[..|a| - 1][|a| - 2] == a[|a| - 2];
      }
    } else {
      assert a + "" == a;
    }
  }

  /** A name is its part after an optional leading slash, which does not
      itself start with a slash. */
  lemma NamePart(b: string)
    requires b != [] && SingleSlashes(b)
    ensures var name := if b[0] == '/' then b[1..] else b;
      && b == (if b[0] == '/' then "/" else "") + name
      && SingleSlashes(name) && (name != [] ==> name[0] != '/')
  {
    if b[0] == '/' {
      SingleSlashesSlice(b, 1, |b|);
      assert b == "/" + b[1..];
      if |b| > 1 {
        assert b[1..][0] == b[1];
      }
    } else {
      assert "" + b == b;
    }
  }

  /** `folder + trailing`, a slash and `leading + name` collapse to the
      folder, one slash and the name, when the two optional slashes are
      the only ones at the join. */
  lemma JoinAcrossSlashes(folder: string, trailing: string, leading: string, name: string)
    requires trailing == "" || trailing == "/"
    requires leading == "" || leading == "/"
    requires SingleSlashes(folder) && (folder != [] ==> folder[|folder| - 1] != '/')
    requires SingleSlashes(name) && (name != [] ==> name[0] != '/')
    ensures CollapseSlashes((folder + trailing) + "/" + (leading + name)) == folder + "/" + name
  {
    var run := trailing + "/" + leading;
    calc {
      (folder + trailing) + "/" + (leading + name);
      { ArraySort.SeqAssociative(folder + trailing, "/", leading + name);
        ArraySort.SeqAssociative(folder, trailing, "/" + (leading + name));
        ArraySort.SeqAssociative("/", leading, name);
        ArraySort.SeqAssociative(trailing, "/" + leading, name);
        ArraySort.SeqAssociative(trailing, "/", leading); }
      folder + (run + name);
    }
    CollapseAfter(folder, run + name);
    CollapseSlashRun(run, name);
    ArraySort.SeqAssociative(folder, "/", name);
  }

  // ---------------------------------------------------------------------
  // Import lines

  const ImportOpen: string := "@import '"
  const ImportClose: string := "';\n"

  /** The import line of one expanded file: the file with the root path's
      length cut off the front. */
  function ImportLine(file: string, rootPath: string): string
  {
    ImportOpen + Substr(file, |rootPath|) + ImportClose
  }

  function ImportBlock(files: seq<string>, rootPath: string): string
  {
    if files == [] then "" else ImportLine(files[0], rootPath) + ImportBlock(files[1..], rootPath)
  }

  lemma {:induction false} ImportBlockAppend(files: seq<string>, file: string, rootPath: string)
    ensures ImportBlock(files + [file], rootPath) == ImportBlock(files, rootPath) + ImportLine(file, rootPath)
  {
    if files == [] {
      assert [file][1..] == [];
    } else {
      assert (files + [file])[1..] == files[1..] + [file];
      ImportBlockAppend(files[1..], file, rootPath);
    }
  }

  lemma ImportBlockConcat(xs: seq<string>, ys: seq<string>, rootPath: string)
    ensures ImportBlock(xs + ys, rootPath) == ImportBlock(xs, rootPath) + ImportBlock(ys, rootPath)
    decreases |xs|
  {
    if xs == [] {
      assert xs + ys == ys;
    } else {
      assert (xs + ys)[1..] == xs[1..] + ys;
      ImportBlockConcat(xs[1..], ys, rootPath);
    }
  }

  /** The import paths as they appear in the LESS source. */
  function Trimmed(files: seq<string>, rootPath: string): (r: seq<string>)
    ensures |r| == |files|
    ensures forall k :: 0 <= k < |files| ==> r[k] == Substr(files[k], |rootPath|)
  {
    seq(|files|, k requires 0 <= k < |files| => Substr(files[k], |rootPath|))
  }

  /** The first index of `c` in `s`, or -1. */
  function IndexOf(s: string, c: char): (r: int)
    ensures -1 <= r < |s|
    ensures r >= 0 ==> s[r] == c
    ensures forall k :: 0 <= k < |s| && (r < 0 || k < r) ==> s[k] != c
  {
    if s == [] then -1
    else if s[0] == c then 0
    else var r := IndexOf(s[1..], c); if r < 0 then -1 else r + 1
  }

  /** Reads a block of import lines back into the quoted paths. */
  function ParseImports(s: string): Option<seq<string>>
    decreases |s|
  {
    if s == "" then Some([])
    else if !(ImportOpen <= s) then None
    else
      var rest := s[|ImportOpen|..];
      var q := IndexOf(rest, '\'');
      if q < 0 || !(ImportClose <= rest[q..]) then None
      else
        match ParseImports(rest[q + |ImportClose|..])
        case None => None
        case Some(paths) => Some([rest[..q]] + paths)
  }

  lemma ParseImportLine(path: string, tail: string)
    requires '\'' !in path
    ensures ParseImports(ImportOpen + path + ImportClose + tail) ==
      match ParseImports(tail)
      case None => None
      case Some(paths) => Some([path] + paths)
  {
    var s := ImportOpen + path + ImportClose + tail;
    var rest := s[|ImportOpen|..];
    assert rest == path + ImportClose + tail;
    assert rest[|path|] == '\'';
    assert forall k :: 0 <= k < |path| ==> rest[k] == path[k];
    assert IndexOf(rest, '\'') == |path|;
    assert rest[|path|..] == ImportClose + tail;
    assert rest[|path| + |ImportClose|..] == tail;
    assert rest[..|path|] == path;
  }

  /** The import block can be read back: it lists exactly the expanded
      files, in order, each without the root path's length of prefix,
      provided no such path holds a quote. */
  lemma {:induction false} ImportBlockRoundTrip(files: seq<string>, rootPath: string)
    requires forall k :: 0 <= k < |files| ==> '\'' !in Substr(files[k], |rootPath|)
    ensures ParseImports(ImportBlock(files, rootPath)) == Some(Trimmed(files, rootPath))
  {
    if files != [] {
      ImportBlockRoundTrip(files[1..], rootPath);
      ParseImportLine(Substr(files[0], |rootPath|), ImportBlock(files[1..], rootPath));
      TrimmedFirst(files, rootPath);
    }
  }

  lemma TrimmedFirst(files: seq<string>, rootPath: string)
    requires files != []
    ensures Trimmed(files, rootPath) == [Substr(files[0], |rootPath|)] + Trimmed(files[1..], rootPath)
  {
    var r := [Substr(files[0], |rootPath|)] + Trimmed(files[1..], rootPath);
    assert forall k :: 0 <= k < |files| ==> r[k] == Substr(files[k], |rootPath|) by {
      forall k | 0 <= k < |files| ensures r[k] == Substr(files[k], |rootPath|) {
        if k > 0 { assert r[k] == Trimmed(files[1..], rootPath)[k - 1]; }
      }
    }
  }

  /** A file below the root path is imported by its path relative to the
      root, so the root followed by the import path is the file again. */
  lemma ImportPathRelativeToRoot(file: string, rootPath: string)
    requires rootPath <= file
    ensures rootPath + Substr(file, |rootPath|) == file
  {
  }

  // ---------------------------------------------------------------------
  // Glob expansion

  /** The files kept by `filter`, in order. */
  function Filter(files: seq<string>, keep: string -> bool): (r: seq<string>)
    ensures forall f :: f in r <==> f in files && keep(f)
    ensures |r| <= |files|
  {
    if files == [] then []
    else (if keep(files[0]) then [files[0]] else []) + Filter(files[1..], keep)
  }

  /** `grunt.file.expand({ filter, order }, path.join(cwd, glob))`: the raw
      matches of the glob (`expand`), the ones `filter` keeps, in the order
      `order` puts them in. */
  function Expansion(glob: string, cwd: string, expand: string -> seq<string>,
                     filter: Option<string -> bool>, order: Option<seq<string> -> seq<string>>): seq<string>
  {
    var matched := expand(PathJoin(cwd, glob));
    var kept := if filter.Some? then Filter(matched, filter.value) else matched;
    if order.Some? then order.value(kept) else kept
  }

  function ExpansionOfAll(globs: seq<string>, cwd: string, expand: string -> seq<string>,
                          filter: Option<string -> bool>, order: Option<seq<string> -> seq<string>>): seq<string>
  {
    if globs == [] then []
    else ExpansionOfAll(globs[..|globs| - 1], cwd, expand, filter, order) +
         Expansion(globs[|globs| - 1], cwd, expand, filter, order)
  }

  /** One glob expands to its own files. */
  lemma ExpansionOfOne(glob: string, cwd: string, expand: string -> seq<string>,
                       filter: Option<string -> bool>, order: Option<seq<string> -> seq<string>>)
    ensures ExpansionOfAll([glob], cwd, expand, filter, order) == Expansion(glob, cwd, expand, filter, order)
  {
    assert [glob][..0] == [];
  }

  /** The files imported: every mandatory glob's files (unfiltered), then
      every `src` glob's files (filtered). */
  function ImportedFiles(options: LessOptions, cwd: string, expand: string -> seq<string>): seq<string>
  {
    ExpansionOfAll(OrEmpty(options.mandatory), cwd, expand, None, options.order) +
    ExpansionOfAll(OrEmpty(options.src), cwd, expand, options.filter, options.order)
  }

  /** An order callback that returns only files the filter keeps, when
      the filter keeps every file it is given. */
  ghost predicate OrderKeepsFilter(order: seq<string> -> seq<string>, keep: string -> bool)
  {
    forall files: seq<string>, f :: (forall g :: g in files ==> keep(g)) && f in order(files) ==> keep(f)
  }

  /** Every file a filtered glob list expands to passes the filter, when
      the order callback, if any, keeps the filter's verdicts. */
  lemma {:induction false} SourceFilesPassFilter(globs: seq<string>, cwd: string, expand: string -> seq<string>,
                                                 keep: string -> bool, order: Option<seq<string> -> seq<string>>,
                                                 f: string)
    requires order.Some? ==> OrderKeepsFilter(order.value, keep)
    requires f in ExpansionOfAll(globs, cwd, expand, Some(keep), order)
    ensures keep(f)
  {
    if globs != [] {
      var init := globs[..|globs| - 1];
      if f in ExpansionOfAll(init, cwd, expand, Some(keep), order) {
        SourceFilesPassFilter(init, cwd, expand, keep, order, f);
      } else {
        var kept := Filter(expand(PathJoin(cwd, globs[|globs| - 1])), keep);
        assert forall g :: g in kept ==> keep(g);
      }
    }
  }

  /** Appends the import lines of one glob's files, as the `forEach` does. */
  method AppendImports(imports: string, files: seq<string>, rootPath: string) returns (r: string)
    ensures r == imports + ImportBlock(files, rootPath)
  {
    r := imports;
    for j := 0 to |files|
      invariant r == imports + ImportBlock(files[..j], rootPath)
    {
      ImportStep(imports, files, j, rootPath);
      r := r + ImportLine(files[j], rootPath);
    }
    assert files[..|files|] == files;
  }

  lemma ImportStep(imports: string, files: seq<string>, j: nat, rootPath: string)
    requires j < |files|
    ensures imports + ImportBlock(files[..j + 1], rootPath)
         == (imports + ImportBlock(files[..j], rootPath)) + ImportLine(files[j], rootPath)
  {
    ImportBlockAppend(files[..j], files[j], rootPath);
    assert files[..j + 1] == files[..j] + [files[j]];
  }

  lemma GlobStep(imports: string, globs: seq<string>, i: nat, cwd: string, rootPath: string,
                  expand: string -> seq<string>, filter: Option<string -> bool>,
                  order: Option<seq<string> -> seq<string>>)
    requires i < |globs|
    ensures imports + ImportBlock(ExpansionOfAll(globs[..i + 1], cwd, expand, filter, order), rootPath)
         == (imports + ImportBlock(ExpansionOfAll(globs[..i], cwd, expand, filter, order), rootPath))
            + ImportBlock(Expansion(globs[i], cwd, expand, filter, order), rootPath)
  {
    assert globs[..i + 1][..i] == globs[..i];
    ImportBlockConcat(ExpansionOfAll(globs[..i], cwd, expand, filter, order),
                      Expansion(globs[i], cwd, expand, filter, order), rootPath);
  }

  /** One of the two loops over globs. */
  method AppendGlobImports(imports: string, globs: seq<string>, cwd: string, rootPath: string,
                           expand: string -> seq<string>, filter: Option<string -> bool>,
                           order: Option<seq<string> -> seq<string>>) returns (r: string)
    ensures r == imports + ImportBlock(ExpansionOfAll(globs, cwd, expand, filter, order), rootPath)
  {
    r := imports;
    for i := 0 to |globs|
      invariant r == imports + ImportBlock(ExpansionOfAll(globs[..i], cwd, expand, filter, order), rootPath)
    {
      var files := Expansion(globs[i], cwd, expand, filter, order);
      GlobStep(imports, globs, i, cwd, rootPath, expand, filter, order);
      r := AppendImports(r, files, rootPath);
    }
    assert globs[..|globs|] == globs;
  }

  /** The start of the LESS source: the breakpoint variables, in em, when
      the Grunt task has a `src` list and a `config` path. */
  method WriteBreakpoints(options: LessOptions, file: ConfigFile, fmt: real -> string) returns (imports: string)
    ensures imports == Header(options, file, fmt)
  {
    imports := "";
    if options.src.Some? && options.config != "" {
      var screenSize := ScreenSizeOf(file);
      var largeEmBreakpoint := EmBreakpoint(screenSize.large);
      var mediumEmBreakpoint := EmBreakpoint(screenSize.medium);
      var smallEmBreakpoint := EmBreakpoint(screenSize.small);
      imports := imports + "\n@adapt-device-large: " + fmt(largeEmBreakpoint) + "em;";
      imports := imports + "\n@adapt-device-medium: " + fmt(mediumEmBreakpoint) + "em;";
      imports := imports + "\n@adapt-device-small: " + fmt(smallEmBreakpoint) + "em;\n";
      assert imports == BreakpointVariables(screenSize, fmt);
    }
  }

  /** The LESS source the Grunt task hands to the compiler. */
  method BuildImports(options: LessOptions, file: ConfigFile, fmt: real -> string, cwd: string,
                      rootPath: string, expand: string -> seq<string>) returns (imports: string)
    ensures imports == Header(options, file, fmt) + ImportBlock(ImportedFiles(options, cwd, expand), rootPath)
  {
    imports := WriteBreakpoints(options, file, fmt);
    ghost var header := imports;
    ghost var mandatoryFiles := ExpansionOfAll(OrEmpty(options.mandatory), cwd, expand, None, options.order);
    ghost var srcFiles := ExpansionOfAll(OrEmpty(options.src), cwd, expand, options.filter, options.order);
    if options.mandatory.Some? {
      imports := AppendGlobImports(imports, options.mandatory.value, cwd, rootPath, expand, None, options.order);
    } else {
      assert imports == header + ImportBlock(mandatoryFiles, rootPath);
    }
    ghost var afterMandatory := imports;
    if options.src.Some? {
      imports := AppendGlobImports(imports, options.src.value, cwd, rootPath, expand, options.filter, options.order);
    } else {
      assert imports == afterMandatory + ImportBlock(srcFiles, rootPath);
    }
    assert header == Header(options, file, fmt);
    assert afterMandatory == header + ImportBlock(mandatoryFiles, rootPath);
    assert imports == afterMandatory + ImportBlock(srcFiles, rootPath);
    assert ImportedFiles(options, cwd, expand) == mandatoryFiles + srcFiles;
    ImportBlockConcat(mandatoryFiles, srcFiles, rootPath);
    ArraySort.SeqAssociative(header, ImportBlock(mandatoryFiles, rootPath), ImportBlock(srcFiles, rootPath));
  }

  // ---------------------------------------------------------------------
  // Rendering and its completion

  /** `sourceMapBasepath`. */
  const SourceMapBasepath: string := "src/node_modules"

  datatype SourceMapOptions = SourceMapOptions(fileInline: bool, outputSourceFiles: bool,
                                               basepath: string, url: string)

  /** The options passed to the LESS compiler. */
  datatype RenderOptions = RenderOptions(compress: bool, sourceMap: Option<SourceMapOptions>)

  function RenderOptionsFor(options: LessOptions): RenderOptions
  {
    RenderOptions(options.compress,
      if options.sourcemaps then Some(SourceMapOptions(false, true, SourceMapBasepath, options.mapFilename))
      else None)
  }

  /** What the compiler passes to `complete`: an error, or the CSS and
      maybe a source map. */
  datatype Rendered = RenderError(message: string) | Output(css: string, sourceMap: Option<string>)

  function CssPath(options: LessOptions): string
  {
    PathJoin(options.dest, options.cssFilename)
  }

  function MapPath(options: LessOptions): string
  {
    PathJoin(options.dest, options.mapFilename)
  }

  /** The files left after the stale source maps of a build without
      source maps are deleted. */
  function Cleaned(files: map<string, string>, options: LessOptions): map<string, string>
  {
    if options.sourcemaps then files else files - {MapPath(options), MapPath(options) + ".imports"}
  }

  /** `output.map` is truthy: present and not empty. */
  predicate HasMap(output: Rendered)
    requires output.Output?
  {
    output.sourceMap.Some? && output.sourceMap.value != ""
  }

  /** The files after a successful compile: the CSS, then, with a map, the
      imports next to the map and the map itself. */
  function Written(files: map<string, string>, output: Rendered, imports: string, options: LessOptions): map<string, string>
    requires output.Output?
  {
    var withCss := files[CssPath(options) := output.css];
    if HasMap(output)
    then withCss[MapPath(options) + ".imports" := imports][MapPath(options) := output.sourceMap.value]
    else withCss
  }

  /** A successful compile leaves the CSS in its file (unless it shares a
      name with a map file), writes the map files exactly when there is a
      map, and touches no other file. */
  lemma WrittenFiles(files: map<string, string>, output: Rendered, imports: string, options: LessOptions, other: string)
    requires output.Output?
    ensures var w := Written(files, output, imports, options);
      && CssPath(options) in w
      && (CssPath(options) != MapPath(options) && CssPath(options) != MapPath(options) + ".imports" ==>
            w[CssPath(options)] == output.css)
      && (HasMap(output) ==> w[MapPath(options)] == output.sourceMap.value)
      && (HasMap(output) && MapPath(options) != MapPath(options) + ".imports" ==>
            w[MapPath(options) + ".imports"] == imports)
      && (other != CssPath(options) && other != MapPath(options) && other != MapPath(options) + ".imports" ==>
            (other in w <==> other in files) && (other in files ==> w[other] == files[other]))
  {
  }

  /** The build's side of the file system, the grunt `done` callback and
      `grunt.fail.fatal`. */
  class BuildOutput {
    var files: map<string, string>
    /** How often `done()` was called. */
    var doneCalls: nat
    /** The message of `grunt.fail.fatal`, once called. */
    var fatal: Option<string>
    /** What went to `console.error`. */
    var errorLog: seq<string>

    constructor (files: map<string, string>)
      ensures this.files == files && doneCalls == 0 && fatal.None? && errorLog == []
    {
      this.files := files;
      doneCalls := 0;
      fatal := None;
      errorLog := [];
    }

    /** Without source maps, a map and its imports file left from an
        earlier build are deleted. */
    method RemoveStaleSourceMaps(options: LessOptions)
      modifies this`files
      ensures files == Cleaned(old(files), options)
      ensures !options.sourcemaps ==> MapPath(options) !in files && MapPath(options) + ".imports" !in files
    {
      if !options.sourcemaps {
        var sourceMapPath := PathJoin(options.dest, options.mapFilename);
        if sourceMapPath in files {
          files := files - {sourceMapPath};
        }
        if sourceMapPath + ".imports" in files {
          files := files - {sourceMapPath + ".imports"};
        }
      }
    }

    /** `complete(error, output)`: an error is logged and made fatal, with
        nothing written and `done` not called; otherwise the output is
        written and `done` is called once. */
    method Complete(result: Rendered, imports: string, options: LessOptions)
      modifies this`files, this`doneCalls, this`fatal, this`errorLog
      ensures result.RenderError? ==>
        && files == old(files) && doneCalls == old(doneCalls)
        && fatal == Some(result.message) && errorLog == old(errorLog) + [result.message]
      ensures result.Output? ==>
        && files == Written(old(files), result, imports, options) && doneCalls == old(doneCalls) + 1
        && fatal == old(fatal) && errorLog == old(errorLog)
    {
      if result.RenderError? {
        var errorString := result.message;
        errorLog := errorLog + [errorString];
        fatal := Some(errorString);
        return;
      }
      files := files[PathJoin(options.dest, options.cssFilename) := result.css];
      if result.sourceMap.Some? && result.sourceMap.value != "" {
        files := files[PathJoin(options.dest, options.mapFilename) + ".imports" := imports];
        files := files[PathJoin(options.dest, options.mapFilename) := result.sourceMap.value];
      }
      doneCalls := doneCalls + 1;
    }

    /** One run of the Grunt task. `resolvedBaseUrl` is `path.resolve(baseUrl)`,
        `expand` the glob matcher and `render` the LESS compiler. */
    method Run(options: LessOptions, file: ConfigFile, fmt: real -> string, cwd: string,
               resolvedBaseUrl: string, expand: string -> seq<string>,
               render: (string, RenderOptions) -> Rendered) returns (imports: string)
      requires resolvedBaseUrl != [] && resolvedBaseUrl[0] == '/'
      modifies this`files, this`doneCalls, this`fatal, this`errorLog
      ensures imports == Header(options, file, fmt) +
                         ImportBlock(ImportedFiles(options, cwd, expand), RootPath(resolvedBaseUrl))
      ensures var result := render(imports, RenderOptionsFor(options));
        && (result.Output? ==>
              && files == Written(Cleaned(old(files), options), result, imports, options)
              && doneCalls == old(doneCalls) + 1 && fatal == old(fatal) && errorLog == old(errorLog))
        && (result.RenderError? ==>
              && files == Cleaned(old(files), options)
              && doneCalls == old(doneCalls) && fatal == Some(result.message)
              && errorLog == old(errorLog) + [result.message])
    {
      var rootPath := RootPath(resolvedBaseUrl);
      imports := BuildImports(options, file, fmt, cwd, rootPath, expand);
      RemoveStaleSourceMaps(options);
      var lessOptions := RenderOptionsFor(options);
      var result := render(imports, lessOptions);
      Complete(result, imports, options);
    }
  }
}
