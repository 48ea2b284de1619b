/** The build helpers of grunt/helpers.js: the patterns built from the
    include, exclude and script-safe lists, their caches in the grunt
    configuration, the per-path include and script-trust decisions, the
    ordering of files by plugin, and the expansion of the include list with
    the plugins' declared dependencies. */
module GruntHelpers {
  import opened JsRuntime
  import opened LiteralRegExp
  import ArraySort

  /** `exports.defaults.sourcedir`. The patterns always use it, never the
      configured source directory. */
  const SourceDir: string := "src/"

  /** `exports.defaults.pluginTypes`: the folder names under the source
      directory. */
  const PluginTypes: seq<string> := ["core", "components", "extensions", "menu", "theme"]

  /** `exports.defaults.includes`. */
  const DefaultIncludes: seq<string> := []

  /** `path.sep` on a POSIX system. */
  const PathSep: char := '/'

  /** The nested plugins folder, `less/plugins`, with the slash that
      precedes it where `isPathIncluded` looks for nested plugins. */
  const LessPluginsFolder: string := "/less/plugins"

  /** What `includes[0]` throws when no script-safe list is configured. */
  const ReadOfUndefined: string := "TypeError: Cannot read properties of undefined (reading '0')"

  /** What `fs.readdirSync` throws for a missing plugin-type folder. */
  const NoSuchFolder: string := "ENOENT: no such file or directory, scandir"

  // ---------------------------------------------------------------------
  // appendSlash

  /** `appendSlash(dir)`: nothing for an absent or empty directory,
      otherwise the directory ending in exactly one added separator. */
  function AppendSlash(dir: Option<string>): (r: Option<string>)
    ensures r.None? <==> dir.None? || dir.value == ""
    ensures r.Some? ==> |r.value| > 0 && r.value[|r.value| - 1] == PathSep
    ensures r.Some? ==> r.value == dir.value || r.value == dir.value + [PathSep]
    ensures r.Some? && dir.value[|dir.value| - 1] == PathSep ==> r.value == dir.value
  {
    if dir.None? || dir.value == "" then None
    else if dir.value[|dir.value| - 1] == PathSep then dir
    else Some(dir.value + [PathSep])
  }

  /** Appending a slash twice is appending it once. */
  lemma AppendSlashIdempotent(dir: Option<string>)
    ensures AppendSlash(AppendSlash(dir)) == AppendSlash(dir)
  {
  }

  // ---------------------------------------------------------------------
  // The patterns

  /** `sourcedir + type + '/' + name + '/'`. */
  function TypeFolder(pluginType: string, name: string): string
  {
    SourceDir + pluginType + "/" + name + "/"
  }

  /** `_.map(pluginTypes, type => sourcedir + type + '/' + name + '/')`. */
  function TypeFolders(name: string): (r: seq<string>)
    ensures |r| == |PluginTypes|
    ensures forall m :: 0 <= m < |PluginTypes| ==> r[m] == TypeFolder(PluginTypes[m], name)
  {
    seq(|PluginTypes|, m requires 0 <= m < |PluginTypes| => TypeFolder(PluginTypes[m], name))
  }

  /** The `|`-join of one plugin's folders under every plugin type. */
  function PluginFolders(name: string): Pattern
  {
    Join(Literals(TypeFolders(name)))
  }

  function EachPluginFolders(names: seq<string>): (r: seq<Pattern>)
    ensures |r| == |names|
    ensures forall k :: 0 <= k < |names| ==> r[k] == PluginFolders(names[k])
  {
    seq(|names|, k requires 0 <= k < |names| => PluginFolders(names[k]))
  }

  /** `generateIncludedRegExp`: the core folder, then every included plugin
      under every plugin type. */
  function IncludedRegExp(includes: seq<string>): Pattern
  {
    Or(Literal(SourceDir + "core/"), Join(EachPluginFolders(includes)))
  }

  /** `generateExcludedRegExp`, given the exclude list it ends up with. */
  function ExcludedRegExp(excludes: seq<string>): Pattern
  {
    Join(EachPluginFolders(excludes))
  }

  /** The text after the second class-star of a nested alternative. */
  function NestedTail(name: string): string
  {
    LessPluginsFolder + "/" + name + "/"
  }

  /** `sourcedir + '([^/]*)/([^/]*)/' + 'less/plugins' + '/' + name + '/'`. */
  function NestedAlternative(name: string): Alternative
  {
    [Lit(SourceDir), Segment, Lit("/"), Segment, Lit(NestedTail(name))]
  }

  function EachNestedAlternative(names: seq<string>): (r: seq<Pattern>)
    ensures |r| == |names|
    ensures forall k :: 0 <= k < |names| ==> r[k] == [NestedAlternative(names[k])]
  {
    seq(|names|, k requires 0 <= k < |names| => [NestedAlternative(names[k])])
  }

  /** `generateNestedIncludedRegExp`. */
  function NestedIncludedRegExp(includes: seq<string>): Pattern
  {
    Join(EachNestedAlternative(includes))
  }

  /** `'/' + name.toLowerCase() + '/'` for every script-safe name. */
  function ScriptSafeFolders(names: seq<string>): (r: seq<string>)
    ensures |r| == |names|
    ensures forall k :: 0 <= k < |names| ==> r[k] == "/" + ToLower(names[k]) + "/"
  {
    seq(|names|, k requires 0 <= k < |names| => "/" + ToLower(names[k]) + "/")
  }

  /** The pattern `generateScriptSafeRegExp` builds: the `|`-join of the
      script-safe folders. */
  function ScriptSafeRegExp(names: seq<string>): Pattern
  {
    Join(Literals(ScriptSafeFolders(names)))
  }

  /** One alternative per literal text. */
  function LiteralAlternatives(ts: seq<string>): (r: Pattern)
    ensures |r| == |ts|
    ensures forall k :: 0 <= k < |ts| ==> r[k] == [Lit(ts[k])]
  {
    seq(|ts|, k requires 0 <= k < |ts| => [Lit(ts[k])])
  }

  lemma {:induction false} ConcatLiterals(ts: seq<string>)
    ensures Concat(Literals(ts)) == LiteralAlternatives(ts)
  {
    if ts != [] {
      var parts := Literals(ts);
      assert parts[1..] == Literals(ts[1..]);
      assert Concat(parts) == parts[0] + Concat(parts[1..]);
      ConcatLiterals(ts[1..]);
      LiteralAlternativesCons(ts);
    }
  }

  /** The alternatives of a list of literals: the first literal's, then
      the rest's. */
  lemma LiteralAlternativesCons(ts: seq<string>)
    requires ts != []
    ensures LiteralAlternatives(ts) == [[Lit(ts[0])]] + LiteralAlternatives(ts[1..])
  {
    var alts, rest := LiteralAlternatives(ts), LiteralAlternatives(ts[1..]);
    forall k | 0 <= k < |alts|
      ensures alts[k] == ([[Lit(ts[0])]] + rest)[k]
    {
      if k > 0 {
        assert ts[k] == ts[1..][k - 1];
      }
    }
  }

  /** `generateScriptSafeRegExp`: `re` starts as `''`; each name appends
      its folder and, unless it is the last, a `|`. */
  method GenerateScriptSafeRegExp(names: seq<string>) returns (re: Pattern)
    ensures re == ScriptSafeRegExp(names)
  {
    var folders := ScriptSafeFolders(names);
    re := EmptySource;
    var count := |names|;
    for i := 0 to count
      invariant i < count ==> re == LiteralAlternatives(folders[..i]) + [[]]
      invariant i == count ==> re == (if count == 0 then EmptySource else LiteralAlternatives(folders))
    {
      ghost var done := LiteralAlternatives(folders[..i]);
      assert re[..|re| - 1] == done && re[|re| - 1] == [];
      var text := "/" + ToLower(names[i]) + "/";
      assert text == folders[i];
      var last := re[|re| - 1] + [Lit(text)];
      assert last == [Lit(text)];
      // re += '/' + includes[i].toLowerCase() + '/'
      re := re[..|re| - 1] + [last];
      assert LiteralAlternatives(folders[..i + 1]) == done + [[Lit(folders[i])]];
      // if (i < includes.length - 1) re += '|'
      if i < count - 1 {
        re := re + [[]];
      }
    }
    if count > 0 {
      ConcatLiterals(folders);
    }
  }

  // ---------------------------------------------------------------------
  // What the patterns match

  /** `q` contains `src/<type>/<name>/` for some plugin type, ignoring case. */
  ghost predicate UnderPluginFolder(q: string, name: string)
  {
    exists m :: 0 <= m < |PluginTypes| && ContainsCI(q, TypeFolder(PluginTypes[m], name))
  }

  /** At index `i` of `q` stands `src/`, a slash-free run up to the `/` at
      index `j`, a slash-free run up to index `l`, and from `l` on
      `/less/plugins/<name>/`, all ignoring case. */
  ghost predicate NestedPluginAt(q: string, i: nat, j: nat, l: nat, name: string)
  {
    && i + |SourceDir| <= j < l <= |q|
    && LitAt(q, i, SourceDir)
    && SlashFree(q, i + |SourceDir|, j)
    && LitAt(q, j, "/")
    && SlashFree(q, j + 1, l)
    && LitAt(q, l, NestedTail(name))
  }

  ghost predicate InNestedPluginFolder(q: string, name: string)
  {
    exists i, j, l :: NestedPluginAt(q, i, j, l, name)
  }

  lemma PluginFoldersMeaning(q: string, name: string)
    ensures Found(q, PluginFolders(name)) <==> UnderPluginFolder(q, name)
  {
    FoundJoinLiterals(q, TypeFolders(name));
  }

  lemma {:induction false} EachPluginFoldersMeaning(q: string, names: seq<string>)
    ensures Found(q, Join(EachPluginFolders(names)))
        <==> names == [] || exists k :: 0 <= k < |names| && UnderPluginFolder(q, names[k])
  {
    FoundJoin(q, EachPluginFolders(names));
    forall k | 0 <= k < |names|
      ensures Found(q, EachPluginFolders(names)[k]) <==> UnderPluginFolder(q, names[k])
    {
      PluginFoldersMeaning(q, names[k]);
    }
  }

  /** The included pattern matches a path that contains the core folder or
      an included plugin's folder under some plugin type; with an empty
      include list its trailing empty alternative matches every path. */
  lemma IncludedRegExpMeaning(q: string, includes: seq<string>)
    ensures Matches(q, IncludedRegExp(includes)) <==>
      || includes == []
      || ContainsCI(q, SourceDir + "core/")
      || exists k :: 0 <= k < |includes| && UnderPluginFolder(q, includes[k])
  {
    MatchesIsFound(q, IncludedRegExp(includes));
    FoundOr(q, Literal(SourceDir + "core/"), Join(EachPluginFolders(includes)));
    FoundLiteral(q, SourceDir + "core/");
    EachPluginFoldersMeaning(q, includes);
  }

  /** The excluded pattern matches a path that contains an excluded
      plugin's folder; an empty exclude list gives the empty pattern, which
      matches every path. */
  lemma ExcludedRegExpMeaning(q: string, excludes: seq<string>)
    ensures Matches(q, ExcludedRegExp(excludes)) <==>
      excludes == [] || exists k :: 0 <= k < |excludes| && UnderPluginFolder(q, excludes[k])
  {
    MatchesIsFound(q, ExcludedRegExp(excludes));
    EachPluginFoldersMeaning(q, excludes);
  }

  lemma TailMeaning(q: string, l: nat, t: string)
    requires l <= |q|
    ensures MatchAt(q, l, [Lit(t)]) <==> LitAt(q, l, t)
  {
    assert [Lit(t)][1..] == [];
  }

  /** From index `j`: a `/`, a slash-free run, and the nested tail. */
  lemma AfterFirstSegmentMeaning(q: string, j: nat, name: string)
    requires j <= |q|
    ensures MatchAt(q, j, [Lit("/"), Segment, Lit(NestedTail(name))]) <==>
      LitAt(q, j, "/") &&
      exists l :: j + 1 <= l <= |q| && SlashFree(q, j + 1, l) && LitAt(q, l, NestedTail(name))
  {
    var tail := NestedTail(name);
    var alt := [Lit("/"), Segment, Lit(tail)];
    assert alt[1..] == [Segment, Lit(tail)];
    assert alt[1..][1..] == [Lit(tail)];
    if LitAt(q, j, "/") {
      SegmentThenMeaning(q, j + 1, [Lit(tail)]);
      forall l | j + 1 <= l <= |q|
        ensures MatchAt(q, l, [Lit(tail)]) <==> LitAt(q, l, tail)
      {
        TailMeaning(q, l, tail);
      }
    }
  }

  lemma NestedAlternativeMeaning(q: string, i: nat, name: string)
    requires i <= |q|
    ensures MatchAt(q, i, NestedAlternative(name)) <==> exists j, l :: NestedPluginAt(q, i, j, l, name)
  {
    if MatchAt(q, i, NestedAlternative(name)) {
      NestedAlternativeSound(q, i, name);
    }
    if exists j, l :: NestedPluginAt(q, i, j, l, name) {
      var j: nat, l: nat :| NestedPluginAt(q, i, j, l, name);
      NestedAlternativeComplete(q, i, j, l, name);
    }
  }

  /** Matching the nested alternative at `i` after its first literal is a
      segment, then a slash, a segment and the tail. */
  lemma NestedAlternativeUnfold(q: string, i: nat, name: string)
    requires i <= |q|
    ensures MatchAt(q, i, NestedAlternative(name)) <==>
      LitAt(q, i, SourceDir) &&
      SegmentThen(q, i + |SourceDir|, [Lit("/"), Segment, Lit(NestedTail(name))])
  {
    var alt := NestedAlternative(name);
    assert alt[0] == Lit(SourceDir) && alt[1..][0] == Segment;
    assert alt[1..][1..] == [Lit("/"), Segment, Lit(NestedTail(name))];
  }

  lemma NestedAlternativeSound(q: string, i: nat, name: string)
    requires i <= |q| && MatchAt(q, i, NestedAlternative(name))
    ensures exists j, l :: NestedPluginAt(q, i, j, l, name)
  {
    var afterFirst := [Lit("/"), Segment, Lit(NestedTail(name))];
    NestedAlternativeUnfold(q, i, name);
    var s0 := i + |SourceDir|;
    SegmentThenMeaning(q, s0, afterFirst);
    var j :| s0 <= j <= |q| && SlashFree(q, s0, j) && MatchAt(q, j, afterFirst);
    AfterFirstSegmentMeaning(q, j, name);
    var l :| j + 1 <= l <= |q| && SlashFree(q, j + 1, l) && LitAt(q, l, NestedTail(name));
    assert NestedPluginAt(q, i, j, l, name);
  }

  lemma NestedAlternativeComplete(q: string, i: nat, j: nat, l: nat, name: string)
    requires NestedPluginAt(q, i, j, l, name)
    ensures MatchAt(q, i, NestedAlternative(name))
  {
    var afterFirst := [Lit("/"), Segment, Lit(NestedTail(name))];
    NestedAlternativeUnfold(q, i, name);
    AfterFirstSegmentMeaning(q, j, name);
    assert MatchAt(q, j, afterFirst);
    SegmentThenMeaning(q, i + |SourceDir|, afterFirst);
  }

  /** The nested pattern matches a path that has some included plugin's
      folder below `src/<any>/<any>/less/plugins/`; with an empty include
      list it is the empty pattern, which matches every path. */
  lemma NestedIncludedRegExpMeaning(q: string, includes: seq<string>)
    ensures Matches(q, NestedIncludedRegExp(includes)) <==>
      includes == [] || exists k :: 0 <= k < |includes| && InNestedPluginFolder(q, includes[k])
  {
    MatchesIsFound(q, NestedIncludedRegExp(includes));
    FoundJoin(q, EachNestedAlternative(includes));
    forall k | 0 <= k < |includes|
      ensures Found(q, [NestedAlternative(includes[k])]) <==> InNestedPluginFolder(q, includes[k])
    {
      var p := [NestedAlternative(includes[k])];
      forall i | 0 <= i <= |q|
        ensures AnyMatchAt(q, i, p) <==> exists j, l :: NestedPluginAt(q, i, j, l, includes[k])
      {
        NestedAlternativeMeaning(q, i, includes[k]);
        assert AnyMatchAt(q, i, p) <==> MatchAt(q, i, p[0]);
      }
      if InNestedPluginFolder(q, includes[k]) {
        var i, j, l :| NestedPluginAt(q, i, j, l, includes[k]);
        assert AnyMatchAt(q, i, p);
      }
    }
  }

  /** The script-safe pattern matches a path that contains `/<name>/` for
      some listed name, ignoring case; an empty list matches every path. */
  lemma ScriptSafeRegExpMeaning(q: string, names: seq<string>)
    ensures Matches(q, ScriptSafeRegExp(names)) <==>
      names == [] || exists k :: 0 <= k < |names| && ContainsCI(q, "/" + ToLower(names[k]) + "/")
  {
    MatchesIsFound(q, ScriptSafeRegExp(names));
    FoundJoinLiterals(q, ScriptSafeFolders(names));
  }

  // ---------------------------------------------------------------------
  // The decisions, once the patterns are given

  predicate IsLineTerminator(c: char)
  {
    c == '\n' || c == '\r' || c == '\U{2028}' || c == '\U{2029}'
  }

  predicate LessPluginsAt(q: string, k: nat)
  {
    k + |LessPluginsFolder| <= |q| && q[k..k + |LessPluginsFolder|] == LessPluginsFolder
  }

  /** `!!q.match(/(?:.)+(?:\/less\/plugins)/g)`: `/less/plugins` occurs
      (case-sensitively) right after a character that is not a line
      terminator, so at an index of at least 1. */
  predicate HasNestedPluginsFolder(q: string)
  {
    exists k :: 1 <= k <= |q| && LessPluginsAt(q, k) && !IsLineTerminator(q[k - 1])
  }

  /** `isExcluded || isIncluded === false`. An absent include list makes
      `isIncluded` undefined, which is not `false`. */
  predicate Rejected(q: string, hasIncludes: bool, hasExcludes: bool, included: Pattern, excluded: Pattern)
  {
    (hasExcludes && Matches(q, excluded)) || (hasIncludes && !Matches(q, included))
  }

  /** The decision chain of `isPathIncluded` on a slash-normalised path. */
  predicate Decision(q: string, hasIncludes: bool, hasExcludes: bool,
                     included: Pattern, excluded: Pattern, nested: Pattern)
  {
    if !hasIncludes && !hasExcludes then true
    else if Rejected(q, hasIncludes, hasExcludes, included, excluded) then false
    else if !HasNestedPluginsFolder(q) then true
    else Matches(q, nested)
  }

  /** Whether the decision chain gets as far as the nested pattern: there
      are rules, the path is not rejected, and it lies below a nested
      `less/plugins` folder. */
  predicate ConsultsNested(q: string, hasIncludes: bool, hasExcludes: bool,
                           included: Pattern, excluded: Pattern)
  {
    (hasIncludes || hasExcludes) && !Rejected(q, hasIncludes, hasExcludes, included, excluded)
    && HasNestedPluginsFolder(q)
  }

  /** The same decision stated on the names themselves: a path is in the
      build when there are no rules at all, or when it is under no
      excluded plugin, is under the core folder or an included plugin (any
      path, for an empty include list), and, if it lies below a nested
      `less/plugins` folder, is in an included plugin's folder there. */
  ghost predicate IncludedByRules(q: string, includes: Option<seq<string>>, excludes: Option<seq<string>>)
  {
    || (includes.None? && excludes.None?)
    || (&& (excludes.Some? ==>
              (excludes.value != [] &&
               forall k :: 0 <= k < |excludes.value| ==> !UnderPluginFolder(q, excludes.value[k])))
        && (includes.Some? ==>
              (|| includes.value == []
               || ContainsCI(q, SourceDir + "core/")
               || exists k :: 0 <= k < |includes.value| && UnderPluginFolder(q, includes.value[k])))
        && (HasNestedPluginsFolder(q) ==>
              (|| OrEmpty(includes) == []
               || exists k :: 0 <= k < |OrEmpty(includes)| && InNestedPluginFolder(q, OrEmpty(includes)[k]))))
  }

  /** With patterns built from the lists, the decision chain is the
      name-level rule. */
  lemma DecisionMeaning(q: string, includes: Option<seq<string>>, excludes: Option<seq<string>>)
    ensures Decision(q, includes.Some?, excludes.Some?,
                     IncludedRegExp(OrEmpty(includes)), ExcludedRegExp(OrEmpty(excludes)),
                     NestedIncludedRegExp(OrEmpty(includes)))
        == IncludedByRules(q, includes, excludes)
  {
    IncludedRegExpMeaning(q, OrEmpty(includes));
    ExcludedRegExpMeaning(q, OrEmpty(excludes));
    NestedIncludedRegExpMeaning(q, OrEmpty(includes));
  }

  /** A configured but empty exclude list builds the empty pattern, which
      matches every path, so every path is left out of the build. */
  lemma EmptyExcludeListRejectsAll(q: string, includes: Option<seq<string>>)
    ensures !Decision(q, includes.Some?, true, IncludedRegExp(OrEmpty(includes)), ExcludedRegExp([]),
                      NestedIncludedRegExp(OrEmpty(includes)))
  {
    DecisionMeaning(q, includes, Some([]));
  }

  /** The names of the exclude list the excluded pattern is built from:
      `excludes || []`, with the production excludes pushed on in a
      production build. */
  function ExcludeNames(excludes: Option<seq<string>>, productionExcludes: Option<seq<string>>, production: bool): seq<string>
  {
    OrEmpty(excludes) + (if production then OrEmpty(productionExcludes) else [])
  }

  /** `isPluginScriptSafe` once the pattern is given:
      `allowscripts || includes[0] === '*' || isExplicitlyDefined`, where
      reading `includes[0]` throws when no list is configured. */
  function ScriptSafeDecision(q: string, allowScripts: bool, scriptSafe: Option<seq<string>>, re: Pattern): Result<bool>
  {
    if scriptSafe.Some? then
      Ok(allowScripts || (|scriptSafe.value| > 0 && scriptSafe.value[0] == "*") || Matches(q, re))
    else if allowScripts then Ok(true)
    else Err(ReadOfUndefined)
  }

  /** With the pattern built from the list: a path is script-safe when
      scripts are allowed outright, the list starts with `*`, the list is
      empty, or the path holds `/<name>/` for a listed name; with no list
      and no override the call throws. */
  lemma ScriptSafeDecisionMeaning(q: string, allowScripts: bool, scriptSafe: Option<seq<string>>)
    ensures ScriptSafeDecision(q, allowScripts, scriptSafe, ScriptSafeRegExp(OrEmpty(scriptSafe))) ==
      if scriptSafe.None? && !allowScripts then Err(ReadOfUndefined)
      else Ok(|| allowScripts
              || (scriptSafe.Some? && |scriptSafe.value| > 0 && scriptSafe.value[0] == "*")
              || (scriptSafe.Some? && (scriptSafe.value == [] ||
                    exists k :: 0 <= k < |scriptSafe.value| &&
                      ContainsCI(q, "/" + ToLower(scriptSafe.value[k]) + "/"))))
  {
    ScriptSafeRegExpMeaning(q, OrEmpty(scriptSafe));
  }

  // ---------------------------------------------------------------------
  // The grunt configuration store and its pattern caches

  /** The part of `grunt.config` (and `grunt.option('allowscripts')`) the
      helpers read, and the four pattern caches they write into it. */
  class GruntConfig {
    var includes: Option<seq<string>>
    var excludes: Option<seq<string>>
    var productionExcludes: Option<seq<string>>
    /** `grunt.config('type') === 'production'`. */
    var production: bool
    var scriptSafe: Option<seq<string>>
    var allowScripts: bool
    var includedRegExp: Option<Pattern>
    var nestedIncludedRegExp: Option<Pattern>
    var excludedRegExp: Option<Pattern>
    var scriptSafeRegExp: Option<Pattern>

    /** A configuration as a build starts it: no pattern cached yet. */
    constructor (includes: Option<seq<string>>, excludes: Option<seq<string>>,
                 productionExcludes: Option<seq<string>>, production: bool,
                 scriptSafe: Option<seq<string>>, allowScripts: bool)
      ensures this.includes == includes && this.excludes == excludes
      ensures this.productionExcludes == productionExcludes && this.production == production
      ensures this.scriptSafe == scriptSafe && this.allowScripts == allowScripts
      ensures includedRegExp.None? && nestedIncludedRegExp.None?
      ensures excludedRegExp.None? && scriptSafeRegExp.None?
    {
      this.includes := includes;
      this.excludes := excludes;
      this.productionExcludes := productionExcludes;
      this.production := production;
      this.scriptSafe := scriptSafe;
      this.allowScripts := allowScripts;
      includedRegExp := None;
      nestedIncludedRegExp := None;
      excludedRegExp := None;
      scriptSafeRegExp := None;
    }

    /** `grunt.config('excludes') || (type === 'production' && grunt.config('productionExcludes'))`
        is truthy. */
    predicate ExcludesConfigured()
      reads this`excludes, this`production, this`productionExcludes
    {
      excludes.Some? || (production && productionExcludes.Some?)
    }

    /** What each getter returns now: the cached pattern, or the one it
        would generate from the configuration. */
    function CurrentIncluded(): Pattern
      reads this`includedRegExp, this`includes
    {
      if includedRegExp.Some? then includedRegExp.value else IncludedRegExp(OrEmpty(includes))
    }

    function CurrentExcluded(): Pattern
      reads this`excludedRegExp, this`excludes, this`productionExcludes, this`production
    {
      if excludedRegExp.Some? then excludedRegExp.value
      else ExcludedRegExp(ExcludeNames(excludes, productionExcludes, production))
    }

    function CurrentNested(): Pattern
      reads this`nestedIncludedRegExp, this`includes
    {
      if nestedIncludedRegExp.Some? then nestedIncludedRegExp.value
      else NestedIncludedRegExp(OrEmpty(includes))
    }

    function CurrentScriptSafe(): Pattern
      reads this`scriptSafeRegExp, this`scriptSafe
    {
      if scriptSafeRegExp.Some? then scriptSafeRegExp.value else ScriptSafeRegExp(OrEmpty(scriptSafe))
    }

    /** `getIncludedRegExp`: generated once, then served from the cache
        even if `includes` has changed since. */
    method GetIncludedRegExp() returns (re: Pattern)
      modifies this`includedRegExp
      ensures old(includedRegExp).Some? ==> re == old(includedRegExp).value
      ensures old(includedRegExp).None? ==> re == IncludedRegExp(OrEmpty(includes))
      ensures includedRegExp == Some(re)
      ensures CurrentIncluded() == old(CurrentIncluded())
    {
      if includedRegExp.Some? {
        re := includedRegExp.value;
      } else {
        re := IncludedRegExp(OrEmpty(includes));
        includedRegExp := Some(re);
      }
    }

    /** `getNestedIncludedRegExp`. */
    method GetNestedIncludedRegExp() returns (re: Pattern)
      modifies this`nestedIncludedRegExp
      ensures old(nestedIncludedRegExp).Some? ==> re == old(nestedIncludedRegExp).value
      ensures old(nestedIncludedRegExp).None? ==> re == NestedIncludedRegExp(OrEmpty(includes))
      ensures nestedIncludedRegExp == Some(re)
      ensures CurrentNested() == old(CurrentNested())
    {
      if nestedIncludedRegExp.Some? {
        re := nestedIncludedRegExp.value;
      } else {
        re := NestedIncludedRegExp(OrEmpty(includes));
        nestedIncludedRegExp := Some(re);
      }
    }

    /** `getExcludedRegExp`. Generating it in a production build pushes the
        production excludes onto the configured exclude list, when there is
        one (otherwise onto a fresh array). */
    method GetExcludedRegExp() returns (re: Pattern)
      modifies this`excludedRegExp, this`excludes
      ensures old(excludedRegExp).Some? ==> re == old(excludedRegExp).value && excludes == old(excludes)
      ensures old(excludedRegExp).None? ==>
        && re == ExcludedRegExp(ExcludeNames(old(excludes), productionExcludes, production))
        && excludes == if production && old(excludes).Some?
                       then Some(ExcludeNames(old(excludes), productionExcludes, production))
                       else old(excludes)
      ensures excludedRegExp == Some(re)
      ensures CurrentExcluded() == old(CurrentExcluded()) && ExcludesConfigured() == old(ExcludesConfigured())
    {
      if excludedRegExp.Some? {
        re := excludedRegExp.value;
        return;
      }
      var configured := excludes;
      var list := OrEmpty(excludes);
      if production {
        list := list + OrEmpty(productionExcludes);
        if excludes.Some? {
          excludes := Some(list);
        }
      } else {
        assert list + [] == list;
      }
      assert list == ExcludeNames(configured, productionExcludes, production);
      re := ExcludedRegExp(list);
      excludedRegExp := Some(re);
    }

    /** `getScriptSafeRegExp`. */
    method GetScriptSafeRegExp() returns (re: Pattern)
      modifies this`scriptSafeRegExp
      ensures old(scriptSafeRegExp).Some? ==> re == old(scriptSafeRegExp).value
      ensures old(scriptSafeRegExp).None? ==> re == ScriptSafeRegExp(OrEmpty(scriptSafe))
      ensures scriptSafeRegExp == Some(re)
    {
      if scriptSafeRegExp.Some? {
        re := scriptSafeRegExp.value;
      } else {
        re := GenerateScriptSafeRegExp(OrEmpty(scriptSafe));
        scriptSafeRegExp := Some(re);
      }
    }

    /** `isPathIncluded`: the decision chain on the slash-normalised path,
        with the patterns the getters serve. A getter runs only when its
        pattern is needed, so only those caches get filled. */
    method IsPathIncluded(pluginPath: string) returns (r: bool)
      modifies this`includedRegExp, this`excludedRegExp, this`nestedIncludedRegExp, this`excludes
      ensures r == Decision(ConvertSlashes(pluginPath), old(includes).Some?, old(ExcludesConfigured()),
                            old(CurrentIncluded()), old(CurrentExcluded()), old(CurrentNested()))
      ensures includedRegExp == if old(includes).Some? then Some(old(CurrentIncluded())) else old(includedRegExp)
      ensures excludedRegExp == if old(ExcludesConfigured()) then Some(old(CurrentExcluded())) else old(excludedRegExp)
      ensures nestedIncludedRegExp ==
        if ConsultsNested(ConvertSlashes(pluginPath), old(includes).Some?, old(ExcludesConfigured()),
                          old(CurrentIncluded()), old(CurrentExcluded()))
        then Some(old(CurrentNested())) else old(nestedIncludedRegExp)
      ensures excludes ==
        if old(ExcludesConfigured()) && old(excludedRegExp).None? && production && old(excludes).Some?
        then Some(ExcludeNames(old(excludes), productionExcludes, production)) else old(excludes)
      // The patterns every later call sees are the ones this call used.
      ensures ExcludesConfigured() == old(ExcludesConfigured())
      ensures CurrentIncluded() == old(CurrentIncluded()) && CurrentExcluded() == old(CurrentExcluded())
      ensures CurrentNested() == old(CurrentNested())
    {
      var q := ConvertSlashes(pluginPath);
      var hasExcludes := excludes.Some? || (production && productionExcludes.Some?);
      if includes.None? && !hasExcludes {
        r := true;
      } else {
        var rejected := RejectedNow(q);
        if rejected {
          r := false;
        } else {
          r := NestedAllows(q);
        }
      }
    }

    /** The last link of `isPathIncluded`'s chain: a path below a nested
        `less/plugins` folder must match the nested pattern, which is
        fetched only then. */
    method NestedAllows(q: string) returns (r: bool)
      modifies this`nestedIncludedRegExp
      ensures r == (!HasNestedPluginsFolder(q) || Matches(q, old(CurrentNested())))
      ensures nestedIncludedRegExp == if HasNestedPluginsFolder(q) then Some(old(CurrentNested())) else old(nestedIncludedRegExp)
      ensures CurrentNested() == old(CurrentNested())
    {
      if !HasNestedPluginsFolder(q) {
        r := true;
      } else {
        ghost var nested0 := CurrentNested();
        var nested := GetNestedIncludedRegExp();
        assert nested == nested0;
        r := Matches(q, nested);
      }
    }

    /** The first half of `isPathIncluded`'s chain: whether the path is
        excluded or, with an include list, not included, with the getters
        run for the lists that are configured. */
    method RejectedNow(q: string) returns (rejected: bool)
      modifies this`includedRegExp, this`excludedRegExp, this`excludes
      ensures rejected == Rejected(q, old(includes).Some?, old(ExcludesConfigured()),
                                   old(CurrentIncluded()), old(CurrentExcluded()))
      ensures includedRegExp == if old(includes).Some? then Some(old(CurrentIncluded())) else old(includedRegExp)
      ensures excludedRegExp == if old(ExcludesConfigured()) then Some(old(CurrentExcluded())) else old(excludedRegExp)
      ensures excludes ==
        if old(ExcludesConfigured()) && old(excludedRegExp).None? && production && old(excludes).Some?
        then Some(ExcludeNames(old(excludes), productionExcludes, production)) else old(excludes)
      ensures ExcludesConfigured() == old(ExcludesConfigured())
      ensures CurrentIncluded() == old(CurrentIncluded()) && CurrentExcluded() == old(CurrentExcluded())
    {
      ghost var included0, excluded0 := CurrentIncluded(), CurrentExcluded();
      var isIncluded := false;
      if includes.Some? {
        var included := GetIncludedRegExp();
        assert included == included0;
        isIncluded := Matches(q, included);
      }
      var isExcluded := false;
      if excludes.Some? || (production && productionExcludes.Some?) {
        var excluded := GetExcludedRegExp();
        assert excluded == excluded0;
        isExcluded := Matches(q, excluded);
      }
      rejected := isExcluded || (includes.Some? && !isIncluded);
    }

    /** `isPluginScriptSafe`. */
    method IsPluginScriptSafe(pluginPath: string) returns (r: Result<bool>)
      modifies this`scriptSafeRegExp
      ensures r == ScriptSafeDecision(ConvertSlashes(pluginPath), allowScripts, scriptSafe, old(CurrentScriptSafe()))
      ensures scriptSafeRegExp == if scriptSafe.Some? then Some(old(CurrentScriptSafe())) else old(scriptSafeRegExp)
    {
      var q := ConvertSlashes(pluginPath);
      var isExplicitlyDefined := false;
      if scriptSafe.Some? {
        var re := GetScriptSafeRegExp();
        isExplicitlyDefined := Matches(q, re);
      }
      if allowScripts {
        return Ok(true);
      }
      if scriptSafe.None? {
        return Err(ReadOfUndefined);
      }
      r := Ok((|scriptSafe.value| > 0 && scriptSafe.value[0] == "*") || isExplicitlyDefined);
    }
  }

  /** On a build that has not cached a pattern yet, `isPathIncluded` is
      the name-level rule, with the production excludes counted among the
      excludes in a production build. */
  method IncludedOnFreshBuild(config: GruntConfig, pluginPath: string) returns (r: bool)
    requires config.includedRegExp.None? && config.excludedRegExp.None? && config.nestedIncludedRegExp.None?
    modifies config
    ensures r == IncludedByRules(ConvertSlashes(pluginPath), old(config.includes),
      if old(config.ExcludesConfigured())
      then Some(ExcludeNames(old(config.excludes), old(config.productionExcludes), old(config.production)))
      else None)
  {
    var q := ConvertSlashes(pluginPath);
    ghost var names := ExcludeNames(config.excludes, config.productionExcludes, config.production);
    ghost var effective := if config.ExcludesConfigured() then Some(names) else None;
    DecisionMeaning(q, config.includes, effective);
    r := config.IsPathIncluded(pluginPath);
  }

  // ---------------------------------------------------------------------
  // orderFilesByPluginType

  /** `paths.findIndex(p => file.startsWith(p))`. */
  function PluginIndex(paths: seq<string>, file: string): (r: int)
    ensures -1 <= r < |paths|
    ensures r == -1 <==> forall k :: 0 <= k < |paths| ==> !(paths[k] <= file)
    ensures 0 <= r ==> paths[r] <= file && forall k :: 0 <= k < r ==> !(paths[k] <= file)
  {
    PluginIndexFrom(paths, file, 0)
  }

  function PluginIndexFrom(paths: seq<string>, file: string, from: nat): (r: int)
    requires from <= |paths|
    ensures r == -1 || from <= r < |paths|
    ensures r == -1 <==> forall k :: from <= k < |paths| ==> !(paths[k] <= file)
    ensures 0 <= r ==> paths[r] <= file && forall k :: from <= k < r ==> !(paths[k] <= file)
    decreases |paths| - from
  {
    if from == |paths| then -1
    else if paths[from] <= file then from
    else PluginIndexFrom(paths, file, from + 1)
  }

  /** The sort key of a file: the index of the first plugin path it starts with. */
  function PluginKey(sortedPluginPaths: seq<string>): string -> int
  {
    file => PluginIndex(sortedPluginPaths, file)
  }

  /** `orderFilesByPluginType(files)`: arrays of at most one file are
      returned as they are; longer ones are sorted in place by
      `(a, b) => index(a) - index(b)`. The plugin paths, which the source
      reads from the loaded framework, are a parameter. */
  method OrderFilesByPluginType(files: array<string>, sortedPluginPaths: seq<string>) returns (r: array<string>)
    modifies files
    ensures r == files
    ensures files[..] == ArraySort.Sort(old(files[..]), ArraySort.ByKey(PluginKey(sortedPluginPaths)))
  {
    r := files;
    if files.Length <= 1 {
      return;
    }
    SortInPlace(files, PluginKey(sortedPluginPaths));
  }

  /** `a.sort((x, y) => key(x) - key(y))`, run in place as an insertion
      sort. */
  method SortInPlace(a: array<string>, key: string -> int)
    modifies a
    ensures a[..] == ArraySort.Sort(old(a[..]), ArraySort.ByKey(key))
  {
    ghost var original := a[..];
    var i := 0;
    while i < a.Length
      invariant 0 <= i <= a.Length
      invariant a[..i] == ArraySort.Sort(original[..i], ArraySort.ByKey(key))
      invariant a[i..] == original[i..]
    {
      SortStep(a, i, key, original);
      i := i + 1;
    }
    assert original[..a.Length] == original;
  }

  /** One step of the outer loop: the sorted prefix grows by one. */
  method SortStep(a: array<string>, i: nat, key: string -> int, ghost original: seq<string>)
    requires i < a.Length == |original|
    requires a[..i] == ArraySort.Sort(original[..i], ArraySort.ByKey(key))
    requires a[i..] == original[i..]
    modifies a
    ensures a[..i + 1] == ArraySort.Sort(original[..i + 1], ArraySort.ByKey(key))
    ensures a[i + 1..] == original[i + 1..]
  {
    ArraySort.SortByKeySorted(original[..i], key);
    assert a[i] == original[i] && a[i + 1..] == original[i + 1..] by {
      assert a[i..][0] == a[i] && original[i..][0] == original[i];
      assert a[i..][1..] == a[i + 1..] && original[i..][1..] == original[i + 1..];
    }
    InsertIntoSorted(a, i, key);
    ArraySort.SortPrefix(original, i, ArraySort.ByKey(key));
  }

  /** One pass of the engine's insertion sort: `a[i]` moves left past the
      elements whose key is greater than its own. */
  method InsertIntoSorted(a: array<string>, i: nat, key: string -> int)
    requires i < a.Length
    requires ArraySort.SortedByKey(a[..i], key)
    modifies a
    ensures a[..i + 1] == ArraySort.Insert(old(a[i]), old(a[..i]), ArraySort.ByKey(key))
    ensures a[i + 1..] == old(a[i + 1..])
  {
    var x := a[i];
    var j := ShiftGreater(a, i, key, key(x));
    ghost var shifted := a[..];
    a[j] := x;
    PassInserts(old(a[..]), shifted, i, j, key);
    assert a[..] == shifted[j := x];
  }

  /** `after` is `before` with the elements in `[j, i)` moved one place
      right, all of them with a key greater than `bound`, and the element
      in front of them (if any) with a key at most `bound`. */
  ghost predicate ShiftedRight(before: seq<string>, after: seq<string>, i: nat, j: nat,
                               key: string -> int, bound: int)
  {
    && |after| == |before| && j <= i < |before|
    && (forall m :: 0 <= m < j ==> after[m] == before[m])
    && (forall m :: j < m <= i ==> after[m] == before[m - 1])
    && (forall m :: i < m < |before| ==> after[m] == before[m])
    && (forall m :: j <= m < i ==> key(before[m]) > bound)
    && (j > 0 ==> key(before[j - 1]) <= bound)
  }

  /** The shifting loop of one insertion pass: the elements before `a[i]`
      whose key is greater than `bound` move one place right, and `j` is the
      place they leave free. */
  method ShiftGreater(a: array<string>, i: nat, key: string -> int, bound: int) returns (j: nat)
    requires i < a.Length
    modifies a
    ensures ShiftedRight(old(a[..]), a[..], i, j, key, bound)
  {
    j := i;
    while j > 0 && key(a[j - 1]) > bound
      invariant 0 <= j <= i
      invariant forall m :: 0 <= m < j ==> a[m] == old(a[m])
      invariant forall m :: j < m <= i ==> a[m] == old(a[m - 1])
      invariant forall m :: i < m < a.Length ==> a[m] == old(a[m])
      invariant forall m :: j <= m < i ==> key(old(a[m])) > bound
    {
      a[j] := a[j - 1];
      j := j - 1;
    }
  }

  /** Writing `before[i]` into the free place of a shifted sorted prefix
      inserts it there, and leaves the rest of the array as it was. */
  lemma PassInserts(before: seq<string>, shifted: seq<string>, i: nat, j: nat, key: string -> int)
    requires i < |before| && ArraySort.SortedByKey(before[..i], key)
    requires ShiftedRight(before, shifted, i, j, key, key(before[i]))
    ensures shifted[j := before[i]][..i + 1] == ArraySort.Insert(before[i], before[..i], ArraySort.ByKey(key))
    ensures shifted[j := before[i]][i + 1..] == before[i + 1..]
  {
    var r := shifted[j := before[i]][..i + 1];
    InsertedAt(r, before[..i], before[i], key, j);
  }

  /** The array after the shifting loop holds the insertion of `x`. */
  lemma InsertedAt(r: seq<string>, prefix: seq<string>, x: string, key: string -> int, j: nat)
    requires j <= |prefix| && |r| == |prefix| + 1
    requires ArraySort.SortedByKey(prefix, key)
    requires forall m :: 0 <= m < j ==> r[m] == prefix[m]
    requires r[j] == x
    requires forall m :: j < m < |r| ==> r[m] == prefix[m - 1]
    requires j > 0 ==> key(prefix[j - 1]) <= key(x)
    requires forall m :: j <= m < |prefix| ==> key(prefix[m]) > key(x)
    ensures r == ArraySort.Insert(x, prefix, ArraySort.ByKey(key))
  {
    forall m | 0 <= m < j
      ensures key(prefix[m]) <= key(x)
    {
      assert key(prefix[m]) <= key(prefix[j - 1]);
    }
    ArraySort.InsertAt(x, prefix, key, j);
    assert r == prefix[..j] + [x] + prefix[j..];
  }

  /** What ordering by plugin promises: the same files, in nondecreasing
      order of plugin index, so that files under no plugin path (index -1)
      come first, and files of one plugin keep their relative order. */
  lemma OrderedByPluginType(files: seq<string>, sortedPluginPaths: seq<string>, k: int)
    ensures var r := ArraySort.Sort(files, ArraySort.ByKey(PluginKey(sortedPluginPaths)));
      && multiset(r) == multiset(files)
      && (forall i, j :: 0 <= i < j < |r| ==>
            PluginIndex(sortedPluginPaths, r[i]) <= PluginIndex(sortedPluginPaths, r[j]))
      && (forall i, j :: 0 <= i < j < |r| && PluginIndex(sortedPluginPaths, r[j]) == -1 ==>
            PluginIndex(sortedPluginPaths, r[i]) == -1)
      && ArraySort.WithKey(r, PluginKey(sortedPluginPaths), k) == ArraySort.WithKey(files, PluginKey(sortedPluginPaths), k)
  {
    var key := PluginKey(sortedPluginPaths);
    ArraySort.SortByKeySorted(files, key);
    ArraySort.SortByKeyStable(files, key, k);
    var r := ArraySort.Sort(files, ArraySort.ByKey(key));
    forall i, j | 0 <= i < j < |r|
      ensures PluginIndex(sortedPluginPaths, r[i]) <= PluginIndex(sortedPluginPaths, r[j])
    {
      assert key(r[i]) <= key(r[j]);
    }
  }

  // ---------------------------------------------------------------------
  // getIncludes

  /** `_.intersection(listing, includes)`: the entries of the listing that
      are also included, each once, in listing order. */
  function Intersection(listing: seq<string>, includes: seq<string>): (r: seq<string>)
    ensures forall x :: x in r <==> x in listing && x in includes
    ensures forall i, j :: 0 <= i < j < |r| ==> r[i] != r[j]
  {
    if listing == [] then []
    else
      var init, x := listing[..|listing| - 1], listing[|listing| - 1];
      assert listing == init + [x];
      var rest := Intersection(init, includes);
      if x in includes && x !in rest then rest + [x] else rest
  }

  /** The `bower.json` dependency keys of one plugin that are not build
      includes, in key order. */
  function NewDependencies(keys: seq<string>, buildIncludes: seq<string>): seq<string>
  {
    if keys == [] then []
    else
      var init, key := keys[..|keys| - 1], keys[|keys| - 1];
      NewDependencies(init, buildIncludes) + (if key !in buildIncludes then [key] else [])
  }

  /** The new dependencies of the given plugins of one type; a plugin whose
      manifest cannot be read (no entry) contributes nothing. */
  function PluginDependencies(plugins: seq<string>, pluginType: string, buildIncludes: seq<string>,
                              manifests: map<(string, string), seq<string>>): seq<string>
  {
    if plugins == [] then []
    else
      var init, plugin := plugins[..|plugins| - 1], plugins[|plugins| - 1];
      PluginDependencies(init, pluginType, buildIncludes, manifests) +
        (if (pluginType, plugin) in manifests
         then NewDependencies(manifests[(pluginType, plugin)], buildIncludes) else [])
  }

  /** The new dependencies of the included plugins installed under each of
      the given plugin types. */
  function TypeDependencies(types: seq<string>, installed: map<string, seq<string>>,
                            buildIncludes: seq<string>, manifests: map<(string, string), seq<string>>): seq<string>
    requires forall t :: t in types ==> t in installed
  {
    if types == [] then []
    else
      var init, t := types[..|types| - 1], types[|types| - 1];
      TypeDependencies(init, installed, buildIncludes, manifests) +
        PluginDependencies(Intersection(installed[t], buildIncludes), t, buildIncludes, manifests)
  }

  /** `getIncludes(buildIncludes, configData)`. The folder listings of the
      plugin types (`installed`) and the readable manifests (`manifests`,
      keyed by type folder and plugin) stand for the file system: a missing
      type folder makes `readdirSync` throw out of the call, while a manifest
      that cannot be read is logged and skipped. */
  method GetIncludes(buildIncludes: seq<string>, installed: map<string, seq<string>>,
                     manifests: map<(string, string), seq<string>>) returns (r: Result<seq<string>>)
    ensures r.Err? <==> exists t :: t in PluginTypes && t !in installed
    ensures r.Ok? ==> r.value == DefaultIncludes + buildIncludes +
                               TypeDependencies(PluginTypes, installed, buildIncludes, manifests)
  {
    var dependencies: seq<string> := [];
    for i := 0 to |PluginTypes|
      invariant forall t :: t in PluginTypes[..i] ==> t in installed
      invariant dependencies == TypeDependencies(PluginTypes[..i], installed, buildIncludes, manifests)
    {
      var pluginType := PluginTypes[i];
      if pluginType !in installed {
        return Err(NoSuchFolder);
      }
      assert PluginTypes[..i + 1] == PluginTypes[..i] + [pluginType];
      var plugins := Intersection(installed[pluginType], buildIncludes);
      dependencies := AddPluginDependencies(dependencies, plugins, pluginType, buildIncludes, manifests);
    }
    assert PluginTypes[..|PluginTypes|] == PluginTypes;
    r := Ok(DefaultIncludes + buildIncludes + dependencies);
  }

  /** The loop of `getIncludes` over the included plugins of one type. */
  method AddPluginDependencies(dependencies: seq<string>, plugins: seq<string>, pluginType: string,
                               buildIncludes: seq<string>, manifests: map<(string, string), seq<string>>)
    returns (r: seq<string>)
    ensures r == dependencies + PluginDependencies(plugins, pluginType, buildIncludes, manifests)
  {
    r := dependencies;
    for j := 0 to |plugins|
      invariant r == dependencies + PluginDependencies(plugins[..j], pluginType, buildIncludes, manifests)
    {
      assert plugins[..j + 1] == plugins[..j] + [plugins[j]];
      if (pluginType, plugins[j]) in manifests {
        r := AddNewDependencies(r, manifests[(pluginType, plugins[j])], buildIncludes);
      }
    }
    assert plugins[..|plugins|] == plugins;
  }

  /** The loop of `getIncludes` over one manifest's dependencies: each one
      not in the build includes is pushed. */
  method AddNewDependencies(dependencies: seq<string>, keys: seq<string>, buildIncludes: seq<string>)
    returns (r: seq<string>)
    ensures r == dependencies + NewDependencies(keys, buildIncludes)
  {
    r := dependencies;
    for k := 0 to |keys|
      invariant r == dependencies + NewDependencies(keys[..k], buildIncludes)
    {
      assert keys[..k + 1] == keys[..k] + [keys[k]];
      if keys[k] !in buildIncludes {
        r := r + [keys[k]];
      }
    }
    assert keys[..|keys|] == keys;
  }

  lemma {:induction false} NewDependenciesMembers(keys: seq<string>, buildIncludes: seq<string>, d: string)
    ensures d in NewDependencies(keys, buildIncludes) <==> d in keys && d !in buildIncludes
  {
    if keys != [] {
      var init := keys[..|keys| - 1];
      NewDependenciesMembers(init, buildIncludes, d);
      assert keys == init + [keys[|keys| - 1]];
    }
  }

  lemma {:induction false} PluginDependenciesMembers(plugins: seq<string>, pluginType: string, buildIncludes: seq<string>,
                                                     manifests: map<(string, string), seq<string>>, d: string)
    ensures d in PluginDependencies(plugins, pluginType, buildIncludes, manifests) <==>
      d !in buildIncludes &&
      exists p :: p in plugins && (pluginType, p) in manifests && d in manifests[(pluginType, p)]
  {
    if plugins != [] {
      var init, plugin := plugins[..|plugins| - 1], plugins[|plugins| - 1];
      assert plugins == init + [plugin];
      PluginDependenciesMembers(init, pluginType, buildIncludes, manifests, d);
      if (pluginType, plugin) in manifests {
        NewDependenciesMembers(manifests[(pluginType, plugin)], buildIncludes, d);
      }
    }
  }

  /** A dependency that `getIncludes` adds is exactly a key of the manifest
      of a plugin that is both installed under a plugin type and a build
      include, that is not a build include itself. Only the included
      plugins' own manifests are read: dependencies of dependencies are
      not followed. */
  lemma {:induction false} TypeDependenciesMembers(types: seq<string>, installed: map<string, seq<string>>,
                                                   buildIncludes: seq<string>, manifests: map<(string, string), seq<string>>,
                                                   d: string)
    requires forall t :: t in types ==> t in installed
    ensures d in TypeDependencies(types, installed, buildIncludes, manifests) <==>
      d !in buildIncludes &&
      exists t, p :: t in types && p in installed[t] && p in buildIncludes &&
                     (t, p) in manifests && d in manifests[(t, p)]
  {
    if types != [] {
      var init, t := types[..|types| - 1], types[|types| - 1];
      assert types == init + [t];
      TypeDependenciesMembers(init, installed, buildIncludes, manifests, d);
      PluginDependenciesMembers(Intersection(installed[t], buildIncludes), t, buildIncludes, manifests, d);
    }
  }
}
