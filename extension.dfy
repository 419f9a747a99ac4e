/**
 * The file decoration provider: it mirrors the "file-size" settings into the
 * size service, decides per path whether to show a size badge, a loading
 * placeholder or nothing, and reacts to filesystem and settings changes.
 * Settings, the scale setting and the events are passed in as values.
 */
module Extension {
  import opened Wrappers
  import opened FileSystem
  import opened Paths
  import opened Aggregation
  import opened SizeCalc
  import SizeService

  /** The tooltip of a decoration: the size label, or the loading text "Calculating size…". */
  datatype Tooltip = SizeTooltip(sizeLabel: Label) | Calculating

  datatype Decoration = Decoration(badge: string, tooltip: Tooltip)

  /** The loading placeholder: badge "..", tooltip "Calculating size…". */
  const PLACEHOLDER: Decoration := Decoration("..", Calculating)

  /** The exclusion list used when the setting is absent. */
  const DEFAULT_EXCLUDES: seq<string> := ["node_modules", ".git", "venv", ".venv"]

  /** The "file-size" settings section; `None` is a setting the user has not made. */
  datatype Settings = Settings(computeFolders: Option<bool>, excludeFolders: Option<seq<string>>)

  /** `cfg.get("computeFolders", true)`. */
  function ComputeFoldersOf(s: Settings): (r: bool)
    ensures s.computeFolders.None? ==> r
    ensures s.computeFolders.Some? ==> r == s.computeFolders.value
  {
    if s.computeFolders.Some? then s.computeFolders.value else true
  }

  /** `new Set(cfg.get("excludeFolders", DEFAULT_EXCLUDES))`. */
  function ExcludeSetOf(s: Settings): (r: set<string>)
    ensures s.excludeFolders.None? ==> r == {"node_modules", ".git", "venv", ".venv"}
    ensures s.excludeFolders.Some? ==> forall x :: x in r <==> x in s.excludeFolders.value
  {
    var list := if s.excludeFolders.Some? then s.excludeFolders.value else DEFAULT_EXCLUDES;
    var r := Elements(list);
    assert s.excludeFolders.None? ==> r == {"node_modules", ".git", "venv", ".venv"} by {
      if s.excludeFolders.None? {
        assert forall x :: x in r <==> x in DEFAULT_EXCLUDES;
      }
    }
    r
  }

  /**
   * The scale `cfg.get("scale", "log2")` selects: "log2" and an absent
   * setting mean binary units; any other value takes the decimal branches.
   */
  function ScaleOf(setting: Option<string>): (scale: Scale)
    ensures scale == Log2 <==> setting.None? || setting.value == "log2"
  {
    if setting.None? || setting.value == "log2" then Log2 else Log10
  }

  /** `buildDecoration`: the presentation's badge, with its label as the tooltip. */
  function BuildDecoration(bytes: nat, scale: Scale): (d: Decoration)
    ensures d.badge == CalcPresentation(bytes, scale).badge
    ensures d.tooltip == SizeTooltip(CalcPresentation(bytes, scale).sizeLabel)
    ensures 1 <= |d.badge| <= 2
    ensures d.tooltip.SizeTooltip? && d.tooltip.sizeLabel.unit in Units(scale)
    ensures d.tooltip.sizeLabel.decimals <= 2
  {
    BadgeShape(bytes, scale);
    var p := CalcPresentation(bytes, scale);
    Decoration(p.badge, SizeTooltip(p.sizeLabel))
  }

  /**
   * What `provideFileDecoration` returns for a path, given whether its name
   * is excluded, what the size cache holds for it, the folder setting and
   * the scale.
   */
  function Decide(excluded: bool, cached: Option<Entry>, computeFolders: bool, scale: Scale): (d: Option<Decoration>)
    ensures excluded ==> d == None
    ensures !excluded && cached.Some? ==>
      (d.Some? <==> computeFolders || !IsDirectory(cached.value.kind)) &&
      (d.Some? ==> d.value == BuildDecoration(cached.value.bytes, scale))
    ensures !excluded && cached.None? ==> (d.Some? <==> computeFolders) && (d.Some? ==> d.value == PLACEHOLDER)
  {
    if excluded then None
    else if cached.Some? then
      if IsDirectory(cached.value.kind) && !computeFolders then None
      else Some(BuildDecoration(cached.value.bytes, scale))
    else if computeFolders then Some(PLACEHOLDER)
    else None
  }

  /** With folder sizes switched off, only cached non-directories are decorated, and never with the placeholder. */
  lemma FoldersOffShowsOnlyFiles(excluded: bool, cached: Option<Entry>, scale: Scale)
    ensures var d := Decide(excluded, cached, false, scale);
      d.Some? <==> !excluded && cached.Some? && !IsDirectory(cached.value.kind)
  {
  }

  /** A shown size badge is one or two characters; the placeholder is shown exactly while nothing is cached. */
  lemma DecorationShapes(excluded: bool, cached: Option<Entry>, computeFolders: bool, scale: Scale)
    ensures var d := Decide(excluded, cached, computeFolders, scale);
      d.Some? ==> (d.value == PLACEHOLDER <==> cached.None?) && (cached.Some? ==> 1 <= |d.value.badge| <= 2)
  {
  }

  class FileSizeDecorationProvider {
    const sizes: SizeService.SizeService
    var computeFolders: bool
    var excludeSet: set<string>

    /** The service is consistent and holds the provider's own copy of the settings. */
    ghost predicate Valid()
      reads this, sizes
    {
      sizes.Valid() && sizes.computeFolders == computeFolders && sizes.excludeFolders == excludeSet
    }

    /** A provider over a fresh size service of width 8, with the settings applied. */
    constructor (settings: Settings)
      ensures Valid() && fresh(sizes)
      ensures sizes.concurrency == 8
      ensures computeFolders == ComputeFoldersOf(settings) && excludeSet == ExcludeSetOf(settings)
      ensures sizes.sizeCache == map[] && sizes.inFlight == map[]
    {
      sizes := new SizeService.SizeService(8);
      computeFolders := true;
      excludeSet := {};
      new;
      ReadConfigAndApply(settings);
    }

    /** `readConfigAndApply`: reads the settings and pushes them into the service; the service's maps stay. */
    method ReadConfigAndApply(settings: Settings)
      requires sizes.Valid()
      modifies this, sizes
      ensures Valid()
      ensures computeFolders == ComputeFoldersOf(settings) && excludeSet == ExcludeSetOf(settings)
      ensures sizes.sizeCache == old(sizes.sizeCache) && sizes.inFlight == old(sizes.inFlight)
      ensures sizes.nextTicket == old(sizes.nextTicket)
    {
      computeFolders := ComputeFoldersOf(settings);
      excludeSet := ExcludeSetOf(settings);
      sizes.UpdateConfig(computeFolders, excludeSet);
    }

    /** `setsEqual`: same size, and every element of `a` is in `b`. */
    static method SetsEqual(a: set<string>, b: set<string>) returns (r: bool)
      ensures r <==> a == b
    {
      if |a| != |b| {
        return false;
      }
      var rest := a;
      while rest != {}
        invariant rest <= a
        invariant a - rest <= b
        decreases |rest|
      {
        var v :| v in rest;
        if v !in b {
          return false;
        }
        rest := rest - {v};
      }
      SubsetOfSameSize(a, b);
      return true;
    }

    /** `isExcluded`: the path's name (last segment, or the whole path) is in the exclusion set. */
    function IsExcluded(path: string): (r: bool)
      reads this
      ensures r <==> (if LastSegment(path) != "" then LastSegment(path) else path) in excludeSet
    {
      Basename(path) in excludeSet
    }

    /**
     * `provideFileDecoration`: the decision of `Decide` on the state before
     * the call; when the path is neither excluded nor cached, its size is
     * requested (and `pending` says the decoration is refreshed once it settles).
     */
    method ProvideFileDecoration(path: string, scaleSetting: Option<string>) returns (d: Option<Decoration>, pending: bool)
      requires Valid()
      modifies sizes
      ensures Valid()
      ensures d == Decide(IsExcluded(path), old(sizes.GetCached(path)), computeFolders, ScaleOf(scaleSetting))
      ensures pending <==> !IsExcluded(path) && path !in old(sizes.sizeCache)
      ensures sizes.sizeCache == old(sizes.sizeCache)
      ensures !pending ==> sizes.inFlight == old(sizes.inFlight) && sizes.nextTicket == old(sizes.nextTicket)
      ensures pending && path in old(sizes.inFlight) ==>
        sizes.inFlight == old(sizes.inFlight) && sizes.nextTicket == old(sizes.nextTicket)
      ensures pending && path !in old(sizes.inFlight) ==>
        sizes.inFlight == old(sizes.inFlight)[path := old(sizes.nextTicket)] && sizes.nextTicket == old(sizes.nextTicket) + 1
    {
      var excluded := IsExcluded(path);
      var cached := sizes.GetCached(path);
      d := Decide(excluded, cached, computeFolders, ScaleOf(scaleSetting));
      pending := !excluded && cached.None?;
      if pending {
        var _, _ := sizes.RequestSize(path);
      }
    }

    /**
     * The filesystem watcher's handler: invalidates the path and its
     * ancestors and returns the paths whose decorations are refreshed.
     */
    method OnFileSystemChange(path: string) returns (changed: seq<string>)
      requires Valid()
      modifies sizes
      ensures Valid()
      ensures changed == AncestorChain(path)
      ensures sizes.sizeCache == old(sizes.sizeCache) - Elements(changed)
      ensures sizes.inFlight == old(sizes.inFlight) - Elements(changed)
    {
      changed := sizes.InvalidateAndCollectUris(path);
    }

    /**
     * The settings-change handler: when a "file-size" scale, folder or
     * exclusion setting is affected it re-reads the settings, clears both
     * caches exactly when the folder setting or the exclusion set changed,
     * and refreshes every decoration; otherwise nothing happens.
     */
    method OnConfigurationChange(affectsScale: bool, affectsComputeFolders: bool, affectsExcludeFolders: bool,
                                 settings: Settings) returns (refreshAll: bool)
      requires Valid()
      modifies this, sizes
      ensures Valid()
      ensures refreshAll <==> affectsScale || affectsComputeFolders || affectsExcludeFolders
      ensures !refreshAll ==>
        computeFolders == old(computeFolders) && excludeSet == old(excludeSet) &&
        sizes.sizeCache == old(sizes.sizeCache) && sizes.inFlight == old(sizes.inFlight)
      ensures refreshAll ==> computeFolders == ComputeFoldersOf(settings) && excludeSet == ExcludeSetOf(settings)
      ensures refreshAll && (computeFolders != old(computeFolders) || excludeSet != old(excludeSet)) ==>
        sizes.sizeCache == map[] && sizes.inFlight == map[]
      ensures refreshAll && computeFolders == old(computeFolders) && excludeSet == old(excludeSet) ==>
        sizes.sizeCache == old(sizes.sizeCache) && sizes.inFlight == old(sizes.inFlight)
      ensures sizes.nextTicket == old(sizes.nextTicket)
    {
      refreshAll := affectsScale || affectsComputeFolders || affectsExcludeFolders;
      if refreshAll {
        var prevCompute := computeFolders;
        var prevExcl := excludeSet;
        ReadConfigAndApply(settings);
        var same := SetsEqual(prevExcl, excludeSet);
        if prevCompute != computeFolders || !same {
          sizes.ClearCaches();
        }
      }
    }
  }

  /** A subset of `b` with as many elements as `b` is `b` itself. */
  lemma SubsetOfSameSize(a: set<string>, b: set<string>)
    requires a <= b && |a| == |b|
    ensures a == b
  {
    if a != b {
      assert b - a != {} by {
        if b - a == {} {
          forall y | y in b ensures y in a {
            assert y !in b - a;
          }
        }
      }
      var x :| x in b - a;
      assert a <= b - {x};
      assert |b - {x}| == |b| - 1;
      SubsetSize(a, b - {x});
    }
  }

  /** A subset is no larger than its superset. */
  lemma {:induction false} SubsetSize(a: set<string>, b: set<string>)
    requires a <= b
    ensures |a| <= |b|
    decreases |a|
  {
    if a != {} {
      var x :| x in a;
      SubsetSize(a - {x}, b - {x});
    }
  }

  /**
   * The provider and the service agree on excluded folders: a directory
   * child is filtered out of its parent's listing exactly when the
   * provider suppresses the decoration of the child's joined path.
   */
  lemma ExclusionAgrees(p: FileSizeDecorationProvider, dir: string, child: DirEntry)
    requires p.Valid()
    requires child.name != "" && '/' !in child.name && IsDirectory(child.kind)
    ensures Kept(child, p.sizes.excludeFolders) <==> !p.IsExcluded(Join(dir, child.name))
  {
    BasenameOfJoin(dir, child.name);
  }

  /** A directory the provider suppresses is never walked by the service: it resolves to zero bytes. */
  lemma ExcludedDirectoryNotWalked(p: FileSizeDecorationProvider, path: string, n: Node)
    requires p.Valid()
    requires n.Stat? && IsDirectory(n.kind) && !IsFile(n.kind)
    requires p.IsExcluded(path)
    ensures EntryOf(path, n, p.sizes.Snapshot()) == Entry(0, DIRECTORY)
  {
  }

  /** Two requests for the same path before it settles share one computation. */
  method DedupScenario(path: string) returns (first: SizeService.Ticket, second: SizeService.Ticket, startedFirst: bool, startedSecond: bool)
    ensures first == second && startedFirst && !startedSecond
  {
    var s := new SizeService.SizeService(8);
    first, startedFirst := s.RequestSize(path);
    second, startedSecond := s.RequestSize(path);
  }

  /**
   * A computation started before `clearCaches` still writes its entry into
   * the emptied cache when it settles afterwards.
   */
  method SettleAfterClearScenario(path: string, e: Entry) returns (cached: Option<Entry>)
    ensures cached == Some(e)
  {
    var s := new SizeService.SizeService(8);
    var _, _ := s.RequestSize(path);
    s.ClearCaches();
    var _ := s.Settle(path, SizeService.Resolved(e));
    cached := s.GetCached(path);
  }
}
