/** The collection of plugins found under the source folder
    (grunt/helpers/Plugins.js). Loading a single plugin (reading its
    `package.json` and deciding whether it is an Adapt plugin) is given as
    a function from the plugin's folder to what it reads; the glob that
    lists the candidate folders is given as a function as well. */
module PluginCollection {
  import opened JsRuntime
  import ArraySort

  /** One item of a plugin's `package.json` file: the file's path and its
      parsed contents, kept as text. */
  datatype FileItem = FileItem(path: string, item: string)

  /** What `plugin.load()` finds in a plugin folder: the plugin's type (if
      its `package.json` names one), whether it is an Adapt plugin, and the
      items of its `package.json` file. */
  datatype PluginInfo = PluginInfo(pluginType: Option<string>, isAdaptPlugin: bool, fileItems: seq<FileItem>)

  /** A loaded plugin and the folder it was loaded from. */
  datatype Plugin = Plugin(sourcePath: string, info: PluginInfo)

  /** The plugins `load` keeps from `candidates`, in glob order: a
      candidate the filter rejects is skipped before any plugin is loaded
      for it; a loaded plugin that is not an Adapt plugin is dropped. */
  function Loaded(candidates: seq<string>, keep: string -> bool, load: string -> PluginInfo): (r: seq<Plugin>)
    ensures |r| <= |candidates|
    ensures forall k :: 0 <= k < |r| ==> r[k].info.isAdaptPlugin && r[k].info == load(r[k].sourcePath)
  {
    if candidates == [] then []
    else
      var init, c := candidates[..|candidates| - 1], candidates[|candidates| - 1];
      var path := c + "/";
      Loaded(init, keep, load) +
      (if keep(c) && load(path).isAdaptPlugin then [Plugin(path, load(path))] else [])
  }

  /** The candidates the filter lets through, each as the folder path a
      plugin is constructed with: the only folders `load` reads. */
  function Probed(candidates: seq<string>, keep: string -> bool): (r: seq<string>)
    ensures |r| <= |candidates|
  {
    if candidates == [] then []
    else
      var init, c := candidates[..|candidates| - 1], candidates[|candidates| - 1];
      Probed(init, keep) + (if keep(c) then [c + "/"] else [])
  }

  /** A plugin is kept exactly when it comes from a candidate that passes
      the filter and whose folder holds an Adapt plugin. */
  lemma {:induction false} LoadedMembers(candidates: seq<string>, keep: string -> bool,
                                         load: string -> PluginInfo, p: Plugin)
    ensures p in Loaded(candidates, keep, load) <==>
      exists c :: c in candidates && keep(c) && load(c + "/").isAdaptPlugin && p == Plugin(c + "/", load(c + "/"))
  {
    if candidates != [] {
      var init, c := candidates[..|candidates| - 1], candidates[|candidates| - 1];
      assert candidates == init + [c];
      LoadedMembers(init, keep, load, p);
      if exists d :: d in candidates && keep(d) && load(d + "/").isAdaptPlugin && p == Plugin(d + "/", load(d + "/")) {
        var d :| d in candidates && keep(d) && load(d + "/").isAdaptPlugin && p == Plugin(d + "/", load(d + "/"));
        if d != c {
          assert d in init;
        }
      }
    }
  }

  /** Loading two lists of candidates one after the other keeps the
      plugins of the first list, then those of the second: glob order is
      preserved. */
  lemma {:induction false} LoadedAppend(xs: seq<string>, ys: seq<string>, keep: string -> bool, load: string -> PluginInfo)
    ensures Loaded(xs + ys, keep, load) == Loaded(xs, keep, load) + Loaded(ys, keep, load)
    decreases |ys|
  {
    if ys == [] {
      assert xs + ys == xs;
    } else {
      var init, y := ys[..|ys| - 1], ys[|ys| - 1];
      assert (xs + ys)[..|xs + ys| - 1] == xs + init;
      LoadedAppend(xs, init, keep, load);
    }
  }

  /** A rejected candidate is never read. */
  lemma {:induction false} ProbedMembers(candidates: seq<string>, keep: string -> bool, path: string)
    ensures path in Probed(candidates, keep) <==> exists c :: c in candidates && keep(c) && path == c + "/"
  {
    if candidates != [] {
      var init, c := candidates[..|candidates| - 1], candidates[|candidates| - 1];
      assert candidates == init + [c];
      ProbedMembers(init, keep, path);
      if exists d :: d in candidates && keep(d) && path == d + "/" {
        var d :| d in candidates && keep(d) && path == d + "/";
        if d != c {
          assert d in init;
        }
      }
    }
  }

  /** The rank `sortBy('type')` gives a plugin type; a missing or unknown
      type ranks 0. */
  function TypeRank(pluginType: Option<string>): (r: int)
    ensures 0 <= r <= 5
    ensures r == 0 <==> pluginType.None? || pluginType.value !in {"core", "component", "extension", "menu", "theme"}
  {
    match pluginType
    case None => 0
    case Some(t) =>
      if t == "core" then 1
      else if t == "component" then 2
      else if t == "extension" then 3
      else if t == "menu" then 4
      else if t == "theme" then 5
      else 0
  }

  function Rank(p: Plugin): int
  {
    TypeRank(p.info.pluginType)
  }

  /** `plugins.sort((a, b) => rank(a) - rank(b))`. */
  function SortedByType(plugins: seq<Plugin>): seq<Plugin>
  {
    ArraySort.Sort(plugins, ArraySort.ByKey(Rank))
  }

  /** Sorting by type is a permutation, orders the plugins core, component,
      extension, menu, theme (unknown types first), and keeps the plugins of
      one rank in the order they had. */
  lemma SortedByTypeOrders(plugins: seq<Plugin>, k: int)
    ensures multiset(SortedByType(plugins)) == multiset(plugins)
    ensures forall i, j :: 0 <= i < j < |SortedByType(plugins)| ==>
      Rank(SortedByType(plugins)[i]) <= Rank(SortedByType(plugins)[j])
    ensures ArraySort.WithKey(SortedByType(plugins), Rank, k) == ArraySort.WithKey(plugins, Rank, k)
  {
    ArraySort.SortByKeySorted(plugins, Rank);
    ArraySort.SortByKeyStable(plugins, Rank, k);
  }

  /** The items of every plugin's `package.json`, plugin after plugin. */
  function AllFileItems(plugins: seq<Plugin>): seq<FileItem>
  {
    if plugins == [] then []
    else AllFileItems(plugins[..|plugins| - 1]) + plugins[|plugins| - 1].info.fileItems
  }

  /** An item is collected exactly when some plugin's file holds it. */
  lemma {:induction false} AllFileItemsMembers(plugins: seq<Plugin>, item: FileItem)
    ensures item in AllFileItems(plugins) <==>
      exists k :: 0 <= k < |plugins| && item in plugins[k].info.fileItems
  {
    if plugins != [] {
      var init := plugins[..|plugins| - 1];
      AllFileItemsMembers(init, item);
      if exists k :: 0 <= k < |plugins| && item in plugins[k].info.fileItems {
        var k :| 0 <= k < |plugins| && item in plugins[k].info.fileItems;
        if k < |plugins| - 1 {
          assert init[k] == plugins[k];
        }
      }
      if exists k :: 0 <= k < |init| && item in init[k].info.fileItems {
        var k :| 0 <= k < |init| && item in init[k].info.fileItems;
        assert init[k] == plugins[k];
      }
    }
  }

  /** The items of two lists of plugins are the items of the first, then
      those of the second. */
  lemma {:induction false} AllFileItemsAppend(xs: seq<Plugin>, ys: seq<Plugin>)
    ensures AllFileItems(xs + ys) == AllFileItems(xs) + AllFileItems(ys)
    decreases |ys|
  {
    if ys == [] {
      assert xs + ys == xs;
    } else {
      var init := ys[..|ys| - 1];
      assert (xs + ys)[..|xs + ys| - 1] == xs + init;
      assert (xs + ys)[|xs + ys| - 1] == ys[|ys| - 1];
      AllFileItemsAppend(xs, init);
    }
  }

  /** The default `includedFilter`: every path is included. */
  function AcceptAll(path: string): bool
  {
    true
  }

  class Plugins {
    var includedFilter: string -> bool
    var sourcePath: string
    var courseDir: string
    var plugins: seq<Plugin>

    /** `new Plugins(options)`: each option left out takes its default,
        the source path defaulting to the `src/` folder of `cwd`. */
    constructor (includedFilter: Option<string -> bool>, sourcePath: Option<string>,
                 courseDir: Option<string>, cwd: string)
      ensures this.includedFilter == (if includedFilter.Some? then includedFilter.value else AcceptAll)
      ensures this.sourcePath == (if sourcePath.Some? then sourcePath.value else cwd + "/src/")
      ensures this.courseDir == (if courseDir.Some? then courseDir.value else "course")
      ensures this.plugins == []
      ensures includedFilter.None? ==> forall p :: this.includedFilter(p)
    {
      var filter: string -> bool := if includedFilter.Some? then includedFilter.value else AcceptAll;
      this.includedFilter := filter;
      this.sourcePath := if sourcePath.Some? then sourcePath.value else cwd + "/src/";
      this.courseDir := if courseDir.Some? then courseDir.value else "course";
      this.plugins := [];
    }

    /** `pluginLocations`: the one glob for the `adapt-*` packages under
        the source folder. */
    function PluginLocations(): (r: seq<string>)
      reads this
      ensures |r| == 1 && sourcePath <= r[0]
      ensures r[0][|sourcePath|..] == "node_modules/adapt-*"
    {
      [sourcePath + "node_modules/adapt-*"]
    }

    /** `load()`: replaces `plugins` with the Adapt plugins among the
        glob's candidates that the filter keeps, and returns this
        collection. `probed` lists the folders a plugin was loaded from. */
    method Load(glob: seq<string> -> seq<string>, load: string -> PluginInfo)
      returns (self: Plugins, ghost probed: seq<string>)
      modifies this`plugins
      ensures self == this
      ensures plugins == Loaded(glob(PluginLocations()), includedFilter, load)
      ensures probed == Probed(glob(PluginLocations()), includedFilter)
    {
      var candidates := glob(PluginLocations());
      var kept: seq<Plugin> := [];
      probed := [];
      for i := 0 to |candidates|
        invariant kept == Loaded(candidates[..i], includedFilter, load)
        invariant probed == Probed(candidates[..i], includedFilter)
      {
        assert candidates[..i + 1][..i] == candidates[..i];
        var candidate := candidates[i];
        if includedFilter(candidate) {
          var path := candidate + "/";
          probed := probed + [path];
          var info := load(path);
          if info.isAdaptPlugin {
            kept := kept + [Plugin(path, info)];
          }
        }
      }
      assert candidates[..|candidates|] == candidates;
      plugins := kept;
      self := this;
    }

    /** `sortBy(by)`: sorts the plugins by type when the key is `type`,
        which it is when the argument is left out (`None`), and leaves them
        as they are otherwise; returns this collection. */
    method SortBy(sortKey: Option<string>) returns (self: Plugins)
      modifies this`plugins
      ensures self == this
      ensures (sortKey.None? || sortKey.value == "type") ==> plugins == SortedByType(old(plugins))
      ensures (sortKey.Some? && sortKey.value != "type") ==> plugins == old(plugins)
    {
      var key := if sortKey.Some? then sortKey.value else "type";
      if key == "type" {
        plugins := SortedByType(plugins);
      }
      self := this;
    }

    /** `getAllPackageJSONFileItems()`: the items of every plugin's
        `package.json`, pushed plugin after plugin. */
    method GetAllPackageJSONFileItems() returns (items: seq<FileItem>)
      ensures items == AllFileItems(plugins)
    {
      items := [];
      for i := 0 to |plugins|
        invariant items == AllFileItems(plugins[..i])
      {
        assert plugins[..i + 1][..i] == plugins[..i];
        items := items + plugins[i].info.fileItems;
      }
      assert plugins[..|plugins|] == plugins;
    }
  }
}
