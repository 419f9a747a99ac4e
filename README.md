# File size explorer badges — a Dafny model of the size engine

This project models the engine of an editor extension that decorates every
file and folder in the explorer with a compact size badge. The engine has three parts:

- **Size service** (`src/sizeService.ts`). A cache of resolved entries (byte
  count and file type) and a registry of in-flight computations, both keyed
  by path. Around them sit:
  - the recursive size computation, which sums a directory with a bounded
    pool of workers over its filtered listing;
  - the invalidation walk, which evicts a changed path and each of its
    ancestors up to the root.
- **Presentation** (`src/sizeCalc.ts`). It picks the unit, the rounded
  label and the one- or two-character magnitude badge for a byte count.
- **Decoration provider** (`src/extension.ts`). It mirrors the "file-size"
  settings into the service and decides, per path, between a size badge, a
  loading placeholder and no decoration. It also reacts to filesystem
  changes and to settings changes.

Modules:

- `Wrappers`: `Option`.
- `Paths`: basename, parent, join, the ancestor chain, depth.
- `FileSystem`: the filesystem as a value. It is a tree of stat results and
  directory listings, with stat and listing failures as explicit cases.
  File types are the host's bit flags.
- `Aggregation`: what a computation resolves to, as functions, with the
  properties of that sum.
- `SizeService`: the service as a class. Its methods are proved against the
  `Aggregation` functions and the `Paths` chain.
- `SizeCalc`: the presentation.
- `Extension`: the provider as a class, plus its decision function.

The filesystem, the settings, the scale setting and the host events are
parameters. An asynchronous computation is split in two halves:

- `RequestSize` registers it under a fresh ticket.
- `Settle` is its continuation.

`ComputeSize` and `ComputeDirectorySize` compute the value it resolves to,
and `RequestAndSettle` runs the three in sequence.

The model follows the code in two details:

- The loading placeholder is shown for every uncached path while folder
  computation is on, files included (`src/extension.ts:121-130`).
- With folder computation off, an uncached file gets no decoration until
  its size is cached.

## Model

| member | source | states |
|---|---|---|
| SizeService.SizeService.constructor | src/sizeService.ts:17-19 | the pool width is the request wrapped to a signed 32-bit integer, and at least 1; both maps are empty; folders are computed and nothing is excluded |
| SizeService.Width | src/sizeService.ts:18 | the width is at least 1; it equals the request for requests in [1, 2^31) and is 1 for requests in [-2^31, 0] |
| SizeService.ToInt32 | src/sizeService.ts:18 | the wrapped value lies in the signed 32-bit range and is congruent to `x` modulo 2^32 |
| SizeService.SizeService.UpdateConfig | src/sizeService.ts:21-24 | the configuration becomes the given copy; cache, registry and tickets are unchanged |
| SizeService.SizeService.ClearCaches | src/sizeService.ts:26-29 | both maps become empty; the configuration is unchanged |
| SizeService.SizeService.GetCached | src/sizeService.ts:31-33 | the result is present exactly when the key is cached, and is then the cached entry |
| SizeService.SizeService.RequestSize | src/sizeService.ts:35-55 | a new computation starts exactly when none is in flight for the key; otherwise the pending one is returned and nothing changes; a started one gets a ticket no pending computation holds; the cache is untouched |
| SizeService.SizeService.Settle | src/sizeService.ts:42-52 | the key leaves the in-flight registry; success caches the entry under the key; failure yields `{0, Unknown}` and leaves the cache as it was |
| SizeService.SizeService.RequestAndSettle | src/sizeService.ts:35-55 | a request for a path with nothing pending caches exactly `EntryOf` of the path under the configuration at the time of the request and leaves the registry as it was; a request joining a pending computation changes nothing |
| SizeService.SizeService.Evict | src/sizeService.ts:63-65 | the key leaves both maps and nothing else changes |
| SizeService.WalkStep | src/sizeService.ts:62-72 | after visiting a path the visited list stays a prefix of the ancestor chain; the walk stops exactly at the chain's end, and otherwise moves to a path it has not visited |
| Extension.DedupScenario | src/sizeService.ts:35-55 | two requests for one path before it settles share one ticket; the first starts the computation and the second does not |
| Extension.SettleAfterClearScenario | src/sizeService.ts:26-29 | a computation started before `clearCaches` still caches its entry when it settles afterwards |
| SizeService.SizeService.InvalidateAndCollectUris | src/sizeService.ts:57-75 | the returned paths are exactly the ancestor chain of the path; exactly those keys leave the cache and the in-flight registry; nothing else changes |
| Paths.Parent | src/sizeService.ts:68 | the empty path's parent is "/"; a non-empty path without '/' is its own parent; when the last '/' is the first character the parent is "/"; otherwise the parent is the text before the last '/' |
| Paths.AncestorChain | src/sizeService.ts:62-73 | the chain is non-empty and starts at the changed path |
| Paths.ChainLinks | src/sizeService.ts:68-72 | each element of the chain is the parent of the one before, and the last is its own parent, so the walk stops there |
| Paths.ChainNoDuplicates | src/sizeService.ts:61-62 | the chain never repeats a path, so the `seen` guard never stops the walk early |
| Paths.ChainStep | src/sizeService.ts:62-72 | at each step the current path is new, and the walk breaks exactly at the last element of the chain |
| Paths.ChainEndsAtRoot | src/sizeService.ts:59 | from an absolute path the walk ends at the root "/" |
| Paths.ChainLength | src/sizeService.ts:57-75 | from a canonical absolute path the walk returns depth + 1 paths, the root included |
| Paths.ParentOfCanonical | src/sizeService.ts:68 | the parent of a canonical path below the root is canonical and one level higher |
| Paths.LastSlash | src/sizeService.ts:78 | the index is that of a '/' with none after it, or -1 when there is none |
| Paths.LastSegment | src/sizeService.ts:78-79 | the segment is the text after the last '/' and holds no '/' |
| Paths.Basename | src/sizeService.ts:77-80 | the name is the whole path exactly when the path has no '/' or ends in '/'; otherwise it is the non-empty, '/'-free text after the last '/' |
| Paths.Join | src/sizeService.ts:128 | the joined path extends the directory by at most one '/' and the name, and ends in '/' followed by the name |
| Paths.ParentOfJoin | src/sizeService.ts:67-71 | the parent the invalidation walk computes for a child joined to a canonical directory is that directory |
| Paths.BasenameOfJoin | src/sizeService.ts:123-128 | the basename of a joined child path is the child's name, so the listing filter and the basename test agree |
| SizeService.SizeService.ComputeSize | src/sizeService.ts:82-110 | the entry equals `EntryOf` on the path, the node and the current configuration |
| SizeService.SizeService.ComputeDirectorySize | src/sizeService.ts:112-151 | the total equals `DirBytes`; a failed listing gives 0 with no worker; otherwise `min(concurrency, count)` workers start and the cursor hands out each position 0..count-1 exactly once, in order |
| SizeService.SizeService.Worker | src/sizeService.ts:133-144 | a worker drains the shared cursor and adds each claimed child's bytes to the running total |
| SizeService.ChildPaths | src/sizeService.ts:128 | one joined path per filtered child, in listing order |
| Paths.Elements | src/sizeService.ts:61 | the set holds exactly the members of the sequence |
| Aggregation.KeptEntries | src/sizeService.ts:121-126 | the filter keeps exactly the listed children that are not excluded directories, and never grows the list |
| Aggregation.SumOfKept | src/sizeService.ts:121-149 | summing the filtered children equals summing the whole listing with excluded directories counted as 0 |
| Aggregation.DirectoryTotal | src/sizeService.ts:92-103 | a computed, non-excluded directory resolves to the sum over its listing, or to 0 when the listing fails |
| Aggregation.FoldersDisabled | src/sizeService.ts:93-96 | with folders off a directory resolves to `{0, Directory}`, and any entry counts only a file's own size |
| Aggregation.NarrowerNeverMore | src/sizeService.ts:92-126 | turning folders off or excluding more names never increases an entry's bytes |
| Aggregation.UnrestrictedCountsAllFiles | src/sizeService.ts:82-151 | with folders on and no exclusions, an entry's bytes are the sum of all file sizes under it |
| Aggregation.NeverOvercounts | src/sizeService.ts:82-151 | under any configuration an entry's bytes are at most the sum of all file sizes under it |
| Aggregation.ExcludedChildNeverVisited | src/sizeService.ts:121-126 | whatever an excluded child directory contains, the parent's entry is the same |
| SizeCalc.UnitIndex | src/sizeCalc.ts:25-28 | the unit index is at most 4; the bytes reach each power of the base up to it, and stay below the next one unless the index is 4 |
| SizeCalc.UnitIndexUnique | src/sizeCalc.ts:25-28 | those bounds determine the unit index |
| SizeCalc.ToUnit | src/sizeCalc.ts:17-30 | the loop returns the scale's base and units, and the unit index `UnitIndex`; the value is `bytes / base^index` |
| SizeCalc.ScaledRoundTrip | src/sizeCalc.ts:25-28 | multiplying the scaled value back by `base^index` gives the byte count |
| SizeCalc.ScaledStep | src/sizeCalc.ts:26 | dividing by the base once more is the same as scaling to the next unit |
| SizeCalc.UnitChoice | src/sizeCalc.ts:17-30 | the value is below the base unless the largest unit is used; it is at least 1 above bytes; counts below the base stay in "B" |
| SizeCalc.FloorLog | src/sizeCalc.ts:46-47 | the result `e` satisfies `b^e <= n < b^(e+1)` |
| SizeCalc.WithinUnitExponent | src/sizeCalc.ts:42-49 | the result is 0 for values below 1, and otherwise the floored logarithm, base 2 or 10 |
| SizeCalc.Decimals | src/sizeCalc.ts:33-38 | at most 2 decimals; none exactly from 100 up, two exactly below 10 |
| SizeCalc.FormatLabel | src/sizeCalc.ts:32-40 | the label keeps the value and the unit and uses the decimals `Decimals` chooses (0 from 100 up, 1 from 10 up, 2 below); for a value in [1, 1000) the unrounded value shifted by the decimals lies in [100, 1000) |
| SizeCalc.LabelShowsThreeDigits | src/sizeCalc.ts:32-40 | for a value in [1, 1000) the unrounded value shifted by the chosen decimals lies in [100, 1000); the rounding of `toFixed` is not covered and can carry to a fourth digit |
| SizeCalc.ToUpper | src/sizeCalc.ts:12 | a lower-case ASCII letter becomes its capital; any other character is unchanged |
| SizeCalc.UnitLetter | src/sizeCalc.ts:12 | empty for an empty unit, otherwise the capitalised first character of the unit |
| SizeCalc.Digit | src/sizeCalc.ts:13 | a decimal digit character that reads back as the number |
| SizeCalc.Badge | src/sizeCalc.ts:13 | at most 2 characters; for an exponent up to 9, a digit reading back as the exponent followed by the unit letter; above 9, the unit letter alone |
| SizeCalc.CalcPresentation | src/sizeCalc.ts:8-15 | the label's unit is the one `toUnit` picks, its value is the byte count scaled to that unit and its decimals are those `formatLabel` chooses for that value; the badge is `Badge` of the within-unit exponent of that value and the unit, 1 or 2 characters ending in the unit's letter |
| SizeCalc.ExponentBound | src/sizeCalc.ts:11-13 | below the largest unit the badge exponent is at most 9 (binary) or 2 (decimal), so the digit is always shown |
| SizeCalc.BadgeShape | src/sizeCalc.ts:8-15 | the badge is 1 or 2 characters and ends in the unit's letter; below the largest unit it is a digit followed by that letter, and the digit reads back as the within-unit exponent of the label's value |
| SizeCalc.PresentZero | src/sizeCalc.ts:8-15 | 0 bytes in binary units give badge "0B" and "0.00 B" |
| SizeCalc.Present1536 | src/sizeCalc.ts:8-15 | 1536 bytes in binary units give badge "0K" and "1.50 KiB" |
| SizeCalc.PresentMillion | src/sizeCalc.ts:8-15 | 1000000 bytes in decimal units give badge "0M" and "1.00 MB" |
| SizeCalc.PresentGibibyte | src/sizeCalc.ts:8-15 | 2^30 bytes in binary units give badge "0G" and "1.00 GiB" |
| Extension.FileSizeDecorationProvider.constructor | src/extension.ts:29-32 | a fresh service of width 8 with the settings applied and both maps empty |
| Extension.FileSizeDecorationProvider.ReadConfigAndApply | src/extension.ts:69-83 | the provider and the service hold the settings, with defaults `true` and node_modules, .git, venv, .venv; the service's maps are unchanged |
| Extension.ComputeFoldersOf | src/extension.ts:71 | the folder setting as given, or `true` when absent |
| Extension.ExcludeSetOf | src/extension.ts:72-78 | the exclusion set holds exactly the listed names, or the four default names when the setting is absent |
| Extension.FileSizeDecorationProvider.SetsEqual | src/extension.ts:85-95 | the result is true exactly when the two sets are equal |
| Extension.SubsetOfSameSize | src/extension.ts:86-94 | a subset of the same size is the whole set, which is why the size comparison plus the membership loop decide equality |
| Extension.FileSizeDecorationProvider.IsExcluded | src/extension.ts:97-101 | a path is excluded exactly when its last '/'-segment, or the whole path when that segment is empty, is in the exclusion set |
| Extension.ExclusionAgrees | src/extension.ts:97-101 | the provider suppresses a child directory's joined path exactly when the service's listing filter drops that child |
| Extension.ExcludedDirectoryNotWalked | src/extension.ts:97-101 | a directory the provider suppresses resolves to `{0, Directory}` in the service and is never walked |
| Extension.ScaleOf | src/extension.ts:137-138 | binary units come exactly from "log2" or an absent setting |
| Extension.BuildDecoration | src/extension.ts:133-141 | the badge and the tooltip's label are those `calcPresentation` gives for the byte count and scale; the badge is 1 or 2 characters; the tooltip is a label in one of the scale's units with at most 2 decimals |
| Extension.Decide | src/extension.ts:103-131 | excluded names get nothing; a cached entry is decorated unless it is a directory while folders are off; an uncached path gets the placeholder exactly when folders are on |
| Extension.FoldersOffShowsOnlyFiles | src/extension.ts:113-130 | with folders off, only cached non-directories are decorated |
| Extension.DecorationShapes | src/extension.ts:103-141 | the placeholder appears exactly for uncached paths; a size badge is 1 or 2 characters |
| Extension.FileSizeDecorationProvider.ProvideFileDecoration | src/extension.ts:103-131 | the result is `Decide` on the state before the call; a size is requested exactly when the path is neither excluded nor cached; then the registry gains exactly that path under a fresh ticket unless it was already pending; the cache is untouched |
| Extension.FileSizeDecorationProvider.OnFileSystemChange | src/extension.ts:36-39 | the refreshed paths are the ancestor chain, and exactly those are evicted |
| Extension.FileSizeDecorationProvider.OnConfigurationChange | src/extension.ts:47-64 | everything is refreshed exactly when a size setting is affected; both caches are cleared exactly when the folder setting or the exclusion set changed; otherwise nothing changes |

## Left out

- Registration with the editor, the event emitter, the watcher subscription and reading the settings from the editor. These are host plumbing. Events and settings are parameters and results of the provider's methods.
- Asynchrony and interleavings. Each computation runs to completion inside `ComputeSize`, and the pool's workers run one after another. The pool is modelled by the shared cursor and the worker count, not by concurrent scheduling.
- SizeService.SizeService.Settle: deletes the in-flight entry by key, as the source does. So when a stale computation settles it also drops a newer computation registered under the same key. The interleavings that lead there are not explored.
- Number rendering with `toFixed`. A label is the exact value, the number of decimals and the unit. The text of the rounded value is not built.
- Floating-point `Math.log2` and `Math.log10`. The badge exponent is the exact floored logarithm; IEEE rounding near powers of the base is not modelled.
- Paths stand for both `uri.path` and `uri.toString()`, which the source uses as map keys. URI schemes and encoding are not modelled.
- Paths.Join: concatenates with a single '/' and does not normalise "." or ".." as `Uri.joinPath` does.
- SizeService.SizeService.constructor: the default argument `concurrency = 8` is not modelled; callers pass the width, and the provider passes 8.
- SizeService.Width: covers integer requests only. The source's `| 0` on fractional, NaN or infinite numbers is not modelled.
- SizeService.SizeService.UpdateConfig: the `|| []` fallback for an absent exclusion set is not modelled, since the provider always passes a set.
- Byte counts are unbounded naturals. JavaScript number precision limits are not modelled.
- `computeFolders` settings that are not booleans (`!!` coercion) are not modelled; settings are `Option<bool>`.
- SizeCalc.ToUpper: upper-cases ASCII letters only; the unit names are ASCII, so `toUpperCase` on other characters does not arise.
- Symbolic-link cycles cannot occur: the filesystem is a finite tree.
