/**
 * The size service: a cache of resolved entries and a registry of pending
 * computations, both keyed by path, plus the configuration snapshot that
 * governs the recursive size computation.
 */
module SizeService {
  import opened Wrappers
  import opened FileSystem
  import opened Paths
  import opened Aggregation

  /** Identifies one started computation (the pending promise of the source). */
  type Ticket = nat

  /** How a pending computation settled. */
  datatype Outcome = Resolved(entry: Entry) | Rejected

  const TWO_32: int := 0x1_0000_0000
  const TWO_31: int := 0x8000_0000

  /** JavaScript's `x | 0` on an integer: wrap to a signed 32-bit value. */
  function ToInt32(x: int): (r: int)
    ensures -TWO_31 <= r < TWO_31
    ensures (r - x) % TWO_32 == 0
  {
    var m := x % TWO_32;
    if m >= TWO_31 then m - TWO_32 else m
  }

  /** The worker-pool width the constructor stores for a requested width: `Math.max(1, requested | 0)`. */
  function Width(requested: int): (w: nat)
    ensures w >= 1
    ensures 1 <= requested < TWO_31 ==> w == requested
    ensures -TWO_31 <= requested <= 0 ==> w == 1
  {
    var r := ToInt32(requested);
    if r < 1 then 1 else r
  }

  function Min(a: nat, b: nat): nat
  {
    if a < b then a else b
  }

  /** The cursor positions 0, 1, ..., k - 1, in the order the cursor hands them out. */
  function Indices(k: nat): (r: seq<nat>)
    ensures |r| == k && forall i :: 0 <= i < k ==> r[i] == i
  {
    if k == 0 then [] else Indices(k - 1) + [k - 1]
  }

  /** Claiming position `i` of the kept children adds that child's entry to the running total. */
  lemma SumBytesPrefix(dir: string, n: Node, cs: seq<DirEntry>, i: nat, cfg: Config)
    requires n.Stat? && n.listing.Entries? && forall c :: c in cs ==> c in n.listing.entries
    requires i < |cs|
    ensures SumBytes(dir, n, cs[..i + 1], cfg) == SumBytes(dir, n, cs[..i], cfg) + EntryOf(Join(dir, cs[i].name), cs[i].node, cfg).bytes
  {
    assert cs[..i + 1][..i] == cs[..i];
  }

  /** The path of each child in `cs`, in order (`joinPath(dir, name)`). */
  function ChildPaths(dir: string, cs: seq<DirEntry>): (r: seq<string>)
    ensures |r| == |cs| && forall i :: 0 <= i < |cs| ==> r[i] == Join(dir, cs[i].name)
  {
    if cs == [] then [] else ChildPaths(dir, cs[..|cs| - 1]) + [Join(dir, cs[|cs| - 1].name)]
  }

  /** A prefix one longer is the shorter prefix and the next element. */
  lemma PrefixSnoc<T>(s: seq<T>, k: nat)
    requires k < |s|
    ensures s[..k + 1] == s[..k] + [s[k]]
  {
  }

  /** Evicting one more key is evicting the enlarged key set. */
  lemma EvictOneMore<V>(m: map<string, V>, gone: set<string>, key: string)
    ensures (m - gone) - {key} == m - (gone + {key})
  {
  }

  /**
   * One step of the invalidation walk along the ancestor chain of `path`:
   * after visiting `cur`, the visited prefix grows by `cur`; the walk stops
   * exactly at the end of the chain, and otherwise moves to a path not yet visited.
   */
  lemma WalkStep(path: string, uris: seq<string>, cur: string)
    requires |uris| < |AncestorChain(path)| && uris == AncestorChain(path)[..|uris|]
    requires cur == AncestorChain(path)[|uris|]
    ensures var chain := AncestorChain(path);
      && uris + [cur] == chain[..|uris| + 1]
      && Elements(uris + [cur]) == Elements(uris) + {cur}
      && (Parent(cur) == cur <==> |uris| + 1 == |chain|)
      && (Parent(cur) != cur ==> chain[|uris| + 1] == Parent(cur) && Parent(cur) !in Elements(uris + [cur]))
      && (Parent(cur) == cur ==> uris + [cur] == chain)
  {
    var chain := AncestorChain(path);
    var k := |uris|;
    ChainStep(path, k);
    PrefixSnoc(chain, k);
    ElementsSnoc(uris, cur);
    var next := Parent(cur);
    if next != cur {
      assert k + 1 < |chain| && chain[k + 1] == next;
      ChainStep(path, k + 1);
      assert next !in chain[..k + 1];
    } else {
      assert k + 1 == |chain|;
      assert chain[..k + 1] == chain;
    }
  }

  class SizeService {
    var sizeCache: map<string, Entry>
    var inFlight: map<string, Ticket>
    const concurrency: nat
    var computeFolders: bool
    var excludeFolders: set<string>
    /** The ticket the next started computation receives. */
    var nextTicket: Ticket

    /** The width is at least 1, and every pending ticket was handed out. */
    ghost predicate Valid()
      reads this
    {
      concurrency >= 1 && forall k :: k in inFlight ==> inFlight[k] < nextTicket
    }

    /** The configuration snapshot the computation reads. */
    function Snapshot(): Config
      reads this
    {
      Config(computeFolders, excludeFolders)
    }

    constructor (requestedConcurrency: int)
      ensures Valid()
      ensures concurrency == Width(requestedConcurrency)
      ensures computeFolders && excludeFolders == {}
      ensures sizeCache == map[] && inFlight == map[] && nextTicket == 0
    {
      concurrency := Width(requestedConcurrency);
      computeFolders := true;
      excludeFolders := {};
      sizeCache := map[];
      inFlight := map[];
      nextTicket := 0;
    }

    /** Replaces the configuration (the set is a value, so it is a copy); neither map changes. */
    method UpdateConfig(newComputeFolders: bool, newExcludeFolders: set<string>)
      requires Valid()
      modifies this
      ensures Valid()
      ensures computeFolders == newComputeFolders && excludeFolders == newExcludeFolders
      ensures sizeCache == old(sizeCache) && inFlight == old(inFlight) && nextTicket == old(nextTicket)
    {
      computeFolders := newComputeFolders;
      excludeFolders := newExcludeFolders;
    }

    /** Empties both maps; the configuration stays. */
    method ClearCaches()
      requires Valid()
      modifies this
      ensures Valid()
      ensures sizeCache == map[] && inFlight == map[]
      ensures computeFolders == old(computeFolders) && excludeFolders == old(excludeFolders)
      ensures nextTicket == old(nextTicket)
    {
      sizeCache := map[];
      inFlight := map[];
    }

    /** The cached entry for `key`, if any. */
    function GetCached(key: string): (r: Option<Entry>)
      reads this
      ensures r.Some? <==> key in sizeCache
      ensures r.Some? ==> r.value == sizeCache[key]
    {
      if key in sizeCache then Some(sizeCache[key]) else None
    }

    /**
     * Returns the pending computation for `key`: the one already registered,
     * or a newly started one, which is registered under `key`.
     */
    method RequestSize(key: string) returns (ticket: Ticket, started: bool)
      requires Valid()
      modifies this
      ensures Valid()
      ensures started <==> key !in old(inFlight)
      ensures !started ==> ticket == old(inFlight)[key] && inFlight == old(inFlight) && nextTicket == old(nextTicket)
      ensures started ==> ticket == old(nextTicket) && ticket !in old(inFlight).Values
      ensures started ==> inFlight == old(inFlight)[key := ticket] && nextTicket == old(nextTicket) + 1
      ensures sizeCache == old(sizeCache)
      ensures computeFolders == old(computeFolders) && excludeFolders == old(excludeFolders)
    {
      if key in inFlight {
        return inFlight[key], false;
      }
      ticket, started := nextTicket, true;
      nextTicket := nextTicket + 1;
      inFlight := inFlight[key := ticket];
    }

    /**
     * The continuation that runs when a computation for `key` settles: on
     * success the entry is cached; either way `key` leaves the registry.
     * Nothing is required of the maps: the key may have been invalidated or
     * the caches cleared while the computation ran.
     */
    method Settle(key: string, outcome: Outcome) returns (e: Entry)
      requires Valid()
      modifies this
      ensures Valid()
      ensures inFlight == old(inFlight) - {key}
      ensures outcome.Resolved? ==> e == outcome.entry && sizeCache == old(sizeCache)[key := e]
      ensures outcome.Rejected? ==> e == Entry(0, UNKNOWN) && sizeCache == old(sizeCache)
      ensures computeFolders == old(computeFolders) && excludeFolders == old(excludeFolders)
      ensures nextTicket == old(nextTicket)
    {
      match outcome
      case Resolved(entry) =>
        sizeCache := sizeCache[key := entry];
        inFlight := inFlight - {key};
        e := entry;
      case Rejected =>
        inFlight := inFlight - {key};
        e := Entry(0, UNKNOWN);
    }

    /**
     * `requestSize` followed to its settlement: when nothing is pending for
     * `key`, a computation starts, computes the entry of `node` under the
     * current configuration and caches it as it settles; a request that
     * joins a pending computation changes nothing.
     */
    method RequestAndSettle(key: string, node: Node) returns (e: Option<Entry>)
      requires Valid()
      modifies this
      ensures Valid()
      ensures key in old(inFlight) ==>
        e == None && sizeCache == old(sizeCache) && inFlight == old(inFlight) && nextTicket == old(nextTicket)
      ensures key !in old(inFlight) ==>
        e == Some(EntryOf(key, node, old(Snapshot()))) &&
        sizeCache == old(sizeCache)[key := e.value] && key !in inFlight && inFlight == old(inFlight) &&
        nextTicket == old(nextTicket) + 1
      ensures computeFolders == old(computeFolders) && excludeFolders == old(excludeFolders)
    {
      var _, started := RequestSize(key);
      if !started {
        return None;
      }
      var computed := ComputeSize(key, node);
      var settled := Settle(key, Resolved(computed));
      assert inFlight == old(inFlight);
      e := Some(settled);
    }

    /** Deletes `key` from both maps. */
    method Evict(key: string)
      requires Valid()
      modifies this
      ensures Valid()
      ensures sizeCache == old(sizeCache) - {key} && inFlight == old(inFlight) - {key}
      ensures computeFolders == old(computeFolders) && excludeFolders == old(excludeFolders)
      ensures nextTicket == old(nextTicket)
    {
      sizeCache := sizeCache - {key};
      inFlight := inFlight - {key};
    }

    /**
     * Evicts `path` and each of its ancestors from both maps and returns them,
     * from `path` up to the first path that is its own parent.
     */
    method InvalidateAndCollectUris(path: string) returns (uris: seq<string>)
      requires Valid()
      modifies this
      ensures Valid()
      ensures uris == AncestorChain(path)
      ensures sizeCache == old(sizeCache) - Elements(uris)
      ensures inFlight == old(inFlight) - Elements(uris)
      ensures computeFolders == old(computeFolders) && excludeFolders == old(excludeFolders)
      ensures nextTicket == old(nextTicket)
    {
      uris := [];
      var cur := path;
      var seen: set<string> := {};
      ghost var chain := AncestorChain(path);
      while cur !in seen
        invariant Valid()
        invariant |uris| < |chain| && uris == chain[..|uris|] && cur == chain[|uris|]
        invariant seen == Elements(uris) && cur !in seen
        invariant sizeCache == old(sizeCache) - seen && inFlight == old(inFlight) - seen
        invariant computeFolders == old(computeFolders) && excludeFolders == old(excludeFolders)
        invariant nextTicket == old(nextTicket)
        decreases |chain| - |uris|
      {
        EvictVisited(cur, old(sizeCache), old(inFlight), seen);
        WalkStep(path, uris, cur);
        uris := uris + [cur];
        seen := seen + {cur};
        var parentPath := Parent(cur);
        if parentPath == cur {
          break;
        }
        cur := parentPath;
      }
    }

    /** One eviction of the walk: `key` joins the keys already removed from both maps. */
    method EvictVisited(key: string, ghost cache0: map<string, Entry>, ghost pending0: map<string, Ticket>,
                        ghost gone: set<string>)
      requires Valid()
      requires sizeCache == cache0 - gone && inFlight == pending0 - gone
      modifies this
      ensures Valid()
      ensures sizeCache == cache0 - (gone + {key}) && inFlight == pending0 - (gone + {key})
      ensures computeFolders == old(computeFolders) && excludeFolders == old(excludeFolders)
      ensures nextTicket == old(nextTicket)
    {
      EvictOneMore(cache0, gone, key);
      EvictOneMore(pending0, gone, key);
      Evict(key);
    }

    /** `computeSize`: the entry for `path`, failures absorbed into the entry. */
    method ComputeSize(path: string, node: Node) returns (e: Entry)
      requires Valid()
      ensures e == EntryOf(path, node, Snapshot())
      decreases node, 2
    {
      match node
      case StatFailure =>
        e := Entry(0, UNKNOWN);
      case Stat(kind, size, _) =>
        var isFile := IsFile(kind);
        var isDir := IsDirectory(kind);
        if isFile {
          return Entry(size, FILE);
        }
        if isDir {
          if !computeFolders {
            return Entry(0, DIRECTORY);
          }
          var name := Basename(path);
          if name in excludeFolders {
            return Entry(0, DIRECTORY);
          }
          var total, _, _ := ComputeDirectorySize(path, node);
          return Entry(total, DIRECTORY);
        }
        e := Entry(0, kind);
    }

    /**
     * `computeDirectorySize`: lists `dir`, drops excluded child directories,
     * and starts `min(concurrency, #children)` workers that claim the children
     * from a shared cursor. The workers run one after another here, so the
     * first claims every child; `claims` records the cursor positions handed
     * out, `workers` the number started.
     */
    method ComputeDirectorySize(dir: string, node: Node) returns (total: nat, ghost claims: seq<nat>, ghost workers: nat)
      requires Valid() && node.Stat?
      ensures total == DirBytes(dir, node, Snapshot())
      ensures node.listing.ListFailure? ==> claims == [] && workers == 0
      ensures node.listing.Entries? ==>
        var count := |KeptEntries(node.listing.entries, excludeFolders)|;
        claims == Indices(count) && workers == Min(concurrency, count)
      decreases node, 1
    {
      if node.listing.ListFailure? {
        return 0, [], 0;
      }
      var filtered := KeptEntries(node.listing.entries, excludeFolders);
      var childUris := ChildPaths(dir, filtered);
      var index: nat := 0;
      total := 0;
      claims := [];
      var n := Min(concurrency, |childUris|);
      var w := 0;
      while w < n
        invariant w <= n
        invariant index <= |childUris|
        invariant w > 0 ==> index == |childUris|
        invariant claims == Indices(index)
        invariant total == SumBytes(dir, node, filtered[..index], Snapshot())
      {
        index, total, claims := Worker(dir, node, filtered, childUris, index, total, claims);
        assert filtered[..index] == filtered;
        w := w + 1;
      }
      assert filtered[..index] == filtered;
      workers := w;
    }

    /**
     * One worker of the pool: while the shared cursor has children left, it
     * claims the next position, computes that child and adds its bytes to
     * the shared total.
     */
    method Worker(dir: string, node: Node, filtered: seq<DirEntry>, childUris: seq<string>,
                  index0: nat, total0: nat, ghost claims0: seq<nat>)
      returns (index: nat, total: nat, ghost claims: seq<nat>)
      requires Valid() && node.Stat? && node.listing.Entries?
      requires forall c :: c in filtered ==> c in node.listing.entries
      requires |childUris| == |filtered| && forall i :: 0 <= i < |filtered| ==> childUris[i] == Join(dir, filtered[i].name)
      requires index0 <= |filtered| && claims0 == Indices(index0)
      requires total0 == SumBytes(dir, node, filtered[..index0], Snapshot())
      ensures index == |filtered| && claims == Indices(index)
      ensures total == SumBytes(dir, node, filtered, Snapshot())
      decreases node, 0
    {
      index, total, claims := index0, total0, claims0;
      while index < |childUris|
        invariant index <= |childUris|
        invariant claims == Indices(index)
        invariant total == SumBytes(dir, node, filtered[..index], Snapshot())
      {
        var i := index;
        index := index + 1;
        claims := claims + [i];
        assert filtered[i] in node.listing.entries;
        var entry := ComputeSize(childUris[i], filtered[i].node);
        SumBytesPrefix(dir, node, filtered, i, Snapshot());
        total := total + entry.bytes;
      }
      assert filtered[..index] == filtered;
    }
  }
}
