/**
 * What `computeSize` and `computeDirectorySize` compute, as functions of the
 * path, the filesystem tree and the configuration snapshot, and the
 * properties of that aggregation.
 */
module Aggregation {
  import opened FileSystem
  import opened Paths

  /** A resolved size: the byte count and the file type it was computed for. */
  datatype Entry = Entry(bytes: nat, kind: FileType)

  /** The configuration the size service holds while it computes. */
  datatype Config = Config(computeFolders: bool, excludeFolders: set<string>)

  /** The listing filter: a child survives unless it is a directory whose name is excluded. */
  predicate Kept(e: DirEntry, excludeFolders: set<string>)
  {
    !(IsDirectory(e.kind) && e.name in excludeFolders)
  }

  /** The children that survive the listing filter. */
  function KeptEntries(es: seq<DirEntry>, excludeFolders: set<string>): (r: seq<DirEntry>)
    ensures |r| <= |es|
    ensures forall e :: e in r <==> e in es && Kept(e, excludeFolders)
  {
    if es == [] then []
    else
      var init := es[..|es| - 1];
      var last := es[|es| - 1];
      assert es == init + [last];
      KeptEntries(init, excludeFolders) + (if Kept(last, excludeFolders) then [last] else [])
  }

  /** The entry `computeSize(path)` resolves to. */
  function EntryOf(path: string, n: Node, cfg: Config): Entry
    decreases n, 2, 0
  {
    match n
    case StatFailure => Entry(0, UNKNOWN)
    case Stat(kind, size, _) =>
      if IsFile(kind) then Entry(size, FILE)
      else if IsDirectory(kind) then
        if !cfg.computeFolders || Basename(path) in cfg.excludeFolders then Entry(0, DIRECTORY)
        else Entry(DirBytes(path, n, cfg), DIRECTORY)
      else Entry(0, kind)
  }

  /** The total `computeDirectorySize(dir)` resolves to. */
  function DirBytes(dir: string, n: Node, cfg: Config): nat
    requires n.Stat?
    decreases n, 1, 0
  {
    match n.listing
    case ListFailure => 0
    case Entries(es) => SumBytes(dir, n, KeptEntries(es, cfg.excludeFolders), cfg)
  }

  /** The sum of the entries of the children `cs` (all listed in `n`) of `dir`. */
  function SumBytes(dir: string, ghost n: Node, cs: seq<DirEntry>, cfg: Config): nat
    requires n.Stat? && n.listing.Entries?
    requires forall c :: c in cs ==> c in n.listing.entries
    decreases n, 0, |cs|
  {
    if cs == [] then 0
    else
      var last := cs[|cs| - 1];
      assert last in n.listing.entries;
      SumBytes(dir, n, cs[..|cs| - 1], cfg) + EntryOf(Join(dir, last.name), last.node, cfg).bytes
  }

  /**
   * Reference sum over the whole listing: every child contributes its entry's
   * bytes, except a directory child whose name is excluded, which contributes 0.
   */
  function SumOverListing(dir: string, ghost n: Node, cs: seq<DirEntry>, cfg: Config): nat
    requires n.Stat? && n.listing.Entries?
    requires forall c :: c in cs ==> c in n.listing.entries
    decreases n, 0, |cs|
  {
    if cs == [] then 0
    else
      var last := cs[|cs| - 1];
      assert last in n.listing.entries;
      SumOverListing(dir, n, cs[..|cs| - 1], cfg)
        + (if Kept(last, cfg.excludeFolders) then EntryOf(Join(dir, last.name), last.node, cfg).bytes else 0)
  }

  /** The bytes of every file in the tree that can be stat-ed and reached through readable directories. */
  function FileBytes(n: Node): nat
    decreases n, 1
  {
    match n
    case StatFailure => 0
    case Stat(kind, size, listing) =>
      if IsFile(kind) then size
      else if IsDirectory(kind) && listing.Entries? then ListBytes(n, listing.entries)
      else 0
  }

  function ListBytes(ghost n: Node, cs: seq<DirEntry>): nat
    requires n.Stat? && n.listing.Entries?
    requires forall c :: c in cs ==> c in n.listing.entries
    decreases n, 0, |cs|
  {
    if cs == [] then 0
    else
      var last := cs[|cs| - 1];
      assert last in n.listing.entries;
      ListBytes(n, cs[..|cs| - 1]) + FileBytes(last.node)
  }

  /** Appending one child adds its entry's bytes to the sum. */
  lemma SumBytesSnoc(dir: string, n: Node, cs: seq<DirEntry>, c: DirEntry, cfg: Config)
    requires n.Stat? && n.listing.Entries?
    requires forall x :: x in cs ==> x in n.listing.entries
    requires c in n.listing.entries
    ensures SumBytes(dir, n, cs + [c], cfg) == SumBytes(dir, n, cs, cfg) + EntryOf(Join(dir, c.name), c.node, cfg).bytes
  {
    assert (cs + [c])[..|cs|] == cs;
  }

  /** Summing the filtered children equals summing the whole listing with excluded directories as 0. */
  lemma {:induction false} SumOfKept(dir: string, n: Node, cs: seq<DirEntry>, cfg: Config)
    requires n.Stat? && n.listing.Entries?
    requires forall c :: c in cs ==> c in n.listing.entries
    ensures SumBytes(dir, n, KeptEntries(cs, cfg.excludeFolders), cfg) == SumOverListing(dir, n, cs, cfg)
    decreases |cs|
  {
    if cs != [] {
      var init := cs[..|cs| - 1];
      var last := cs[|cs| - 1];
      assert last in cs;
      SumOfKept(dir, n, init, cfg);
      var k := KeptEntries(init, cfg.excludeFolders);
      if Kept(last, cfg.excludeFolders) {
        assert KeptEntries(cs, cfg.excludeFolders) == k + [last];
        SumBytesSnoc(dir, n, k, last, cfg);
      } else {
        assert KeptEntries(cs, cfg.excludeFolders) == k;
      }
    }
  }

  /**
   * A directory that is computed (folders enabled, own name not excluded)
   * totals the entries of all its listed children, excluded child
   * directories counting 0 and files counting whatever their name;
   * a listing failure gives 0.
   */
  lemma DirectoryTotal(dir: string, n: Node, cfg: Config)
    requires n.Stat? && IsDirectory(n.kind) && !IsFile(n.kind)
    requires cfg.computeFolders && Basename(dir) !in cfg.excludeFolders
    ensures n.listing.ListFailure? ==> EntryOf(dir, n, cfg) == Entry(0, DIRECTORY)
    ensures n.listing.Entries? ==>
      EntryOf(dir, n, cfg) == Entry(SumOverListing(dir, n, n.listing.entries, cfg), DIRECTORY)
  {
    if n.listing.Entries? {
      SumOfKept(dir, n, n.listing.entries, cfg);
    }
  }

  /** With folders disabled every directory resolves to zero bytes, without its listing being consulted. */
  lemma FoldersDisabled(path: string, n: Node, cfg: Config)
    requires !cfg.computeFolders
    ensures n.Stat? && !IsFile(n.kind) && IsDirectory(n.kind) ==> EntryOf(path, n, cfg) == Entry(0, DIRECTORY)
    ensures EntryOf(path, n, cfg).bytes == if n.Stat? && IsFile(n.kind) then n.size else 0
  {
  }

  /** `narrow` computes at most what `wide` does: folders only when `wide` has them, and more exclusions. */
  predicate Narrower(narrow: Config, wide: Config)
  {
    (narrow.computeFolders ==> wide.computeFolders) && wide.excludeFolders <= narrow.excludeFolders
  }

  /** Disabling folders or excluding more names never makes any entry larger. */
  lemma {:induction false} NarrowerNeverMore(path: string, n: Node, narrow: Config, wide: Config)
    requires Narrower(narrow, wide)
    ensures EntryOf(path, n, narrow).bytes <= EntryOf(path, n, wide).bytes
    decreases n, 1
  {
    match n
    case StatFailure =>
    case Stat(kind, size, listing) =>
      if !IsFile(kind) && IsDirectory(kind) && narrow.computeFolders
        && Basename(path) !in narrow.excludeFolders && listing.Entries?
      {
        SumOfKept(path, n, listing.entries, narrow);
        SumOfKept(path, n, listing.entries, wide);
        ListingNarrowerNeverMore(path, n, listing.entries, narrow, wide);
      }
  }

  lemma {:induction false} ListingNarrowerNeverMore(dir: string, n: Node, cs: seq<DirEntry>, narrow: Config, wide: Config)
    requires Narrower(narrow, wide)
    requires n.Stat? && n.listing.Entries?
    requires forall c :: c in cs ==> c in n.listing.entries
    ensures SumOverListing(dir, n, cs, narrow) <= SumOverListing(dir, n, cs, wide)
    decreases n, 0, |cs|
  {
    if cs != [] {
      var last := cs[|cs| - 1];
      assert last in n.listing.entries;
      ListingNarrowerNeverMore(dir, n, cs[..|cs| - 1], narrow, wide);
      NarrowerNeverMore(Join(dir, last.name), last.node, narrow, wide);
    }
  }

  /** With folders enabled and nothing excluded, an entry counts every reachable file's bytes. */
  lemma {:induction false} UnrestrictedCountsAllFiles(path: string, n: Node)
    ensures EntryOf(path, n, Config(true, {})).bytes == FileBytes(n)
    decreases n, 1
  {
    match n
    case StatFailure =>
    case Stat(kind, size, listing) =>
      if !IsFile(kind) && IsDirectory(kind) && listing.Entries? {
        SumOfKept(path, n, listing.entries, Config(true, {}));
        ListingCountsAllFiles(path, n, listing.entries);
      }
  }

  lemma {:induction false} ListingCountsAllFiles(dir: string, n: Node, cs: seq<DirEntry>)
    requires n.Stat? && n.listing.Entries?
    requires forall c :: c in cs ==> c in n.listing.entries
    ensures SumOverListing(dir, n, cs, Config(true, {})) == ListBytes(n, cs)
    decreases n, 0, |cs|
  {
    if cs != [] {
      var last := cs[|cs| - 1];
      assert last in n.listing.entries;
      ListingCountsAllFiles(dir, n, cs[..|cs| - 1]);
      UnrestrictedCountsAllFiles(Join(dir, last.name), last.node);
    }
  }

  /** Failures and exclusions only ever undercount: no entry exceeds the bytes of the files beneath it. */
  lemma NeverOvercounts(path: string, n: Node, cfg: Config)
    ensures EntryOf(path, n, cfg).bytes <= FileBytes(n)
  {
    NarrowerNeverMore(path, n, cfg, Config(true, {}));
    UnrestrictedCountsAllFiles(path, n);
  }

  /** Replacing the subtree of a dropped child leaves the kept children as they were. */
  lemma {:induction false} KeptIgnoresDropped(es: seq<DirEntry>, i: nat, other: Node, excludeFolders: set<string>)
    requires i < |es| && !Kept(es[i], excludeFolders)
    ensures KeptEntries(es[i := es[i].(node := other)], excludeFolders) == KeptEntries(es, excludeFolders)
    decreases |es|
  {
    var es' := es[i := es[i].(node := other)];
    var init := es[..|es| - 1];
    var init' := es'[..|es| - 1];
    var last := es[|es| - 1];
    var last' := es'[|es| - 1];
    assert Kept(last', excludeFolders) == Kept(last, excludeFolders);
    if i == |es| - 1 {
      assert init' == init;
    } else {
      assert last' == last;
      assert init' == init[i := init[i].(node := other)];
      KeptIgnoresDropped(init, i, other, excludeFolders);
    }
    assert es' == init' + [last'] && es == init + [last];
    KeptEntriesSnoc(init', last', excludeFolders);
    KeptEntriesSnoc(init, last, excludeFolders);
  }

  lemma KeptEntriesSnoc(init: seq<DirEntry>, last: DirEntry, excludeFolders: set<string>)
    ensures KeptEntries(init + [last], excludeFolders)
      == KeptEntries(init, excludeFolders) + (if Kept(last, excludeFolders) then [last] else [])
  {
    var es := init + [last];
    assert es[..|es| - 1] == init;
  }

  /** The sum of the children does not depend on which listing they are drawn from. */
  lemma {:induction false} SumBytesAnyListing(dir: string, n: Node, n': Node, cs: seq<DirEntry>, cfg: Config)
    requires n.Stat? && n.listing.Entries? && forall c :: c in cs ==> c in n.listing.entries
    requires n'.Stat? && n'.listing.Entries? && forall c :: c in cs ==> c in n'.listing.entries
    ensures SumBytes(dir, n, cs, cfg) == SumBytes(dir, n', cs, cfg)
    decreases |cs|
  {
    if cs != [] {
      SumBytesAnyListing(dir, n, n', cs[..|cs| - 1], cfg);
    }
  }

  /**
   * An excluded child directory is never looked into: whatever its subtree
   * holds, the parent's entry stays the same.
   */
  lemma ExcludedChildNeverVisited(dir: string, n: Node, i: nat, other: Node, cfg: Config)
    requires n.Stat? && n.listing.Entries? && i < |n.listing.entries|
    requires !Kept(n.listing.entries[i], cfg.excludeFolders)
    ensures var es := n.listing.entries;
      EntryOf(dir, n.(listing := Entries(es[i := es[i].(node := other)])), cfg) == EntryOf(dir, n, cfg)
  {
    var es := n.listing.entries;
    var es' := es[i := es[i].(node := other)];
    var n' := n.(listing := Entries(es'));
    KeptIgnoresDropped(es, i, other, cfg.excludeFolders);
    var k := KeptEntries(es, cfg.excludeFolders);
    SumBytesAnyListing(dir, n, n', k, cfg);
  }
}
