/**
 * The host filesystem as the size service sees it through `stat` and
 * `readDirectory`: a finite tree whose nodes may fail to stat, and whose
 * directories may fail to list.
 */
module FileSystem {

  /** The editor's file type: a bit set (a symbolic link to a file is File | SymbolicLink). */
  type FileType = nat

  const UNKNOWN: FileType := 0
  const FILE: FileType := 1
  const DIRECTORY: FileType := 2

  /** `type & FileType.File` is non-zero. */
  predicate IsFile(t: FileType)
  {
    t % 2 == 1
  }

  /** `type & FileType.Directory` is non-zero. */
  predicate IsDirectory(t: FileType)
  {
    (t / 2) % 2 == 1
  }

  /** What `stat` reports for a path, with the listing `readDirectory` would give. */
  datatype Node =
    | Stat(kind: FileType, size: nat, listing: Listing)
    | StatFailure

  /** The result of `readDirectory`: (name, type) pairs, each with the node it names. */
  datatype Listing =
    | Entries(entries: seq<DirEntry>)
    | ListFailure

  /** One listed child: its name and the type the listing reports, and the child itself. */
  datatype DirEntry = DirEntry(name: string, kind: FileType, node: Node)
}
