/**
 * What the analyzer asks of the file system, as a fixed value: which
 * path patterns match something, which files can be read and with what
 * text, which paths are directories and what each directory lists.
 * Glob matching itself is not modelled; a pattern is an opaque string
 * relative to the repository root.
 */
module Files {
  import opened Wrappers

  datatype FileTree = FileTree(
    matches: set<string>,            // patterns (plain paths or globs) that match at least one path
    contents: map<string, string>,   // files whose text can be read, by relative path
    dirs: set<string>,               // relative paths that are directories
    listing: map<string, seq<string>>) // names a directory lists, in no particular order

  /** Whether any of the patterns matches. */
  predicate AnyMatch(t: FileTree, patterns: seq<string>)
  {
    exists k :: 0 <= k < |patterns| && patterns[k] in t.matches
  }

  /** The text of a readable file, or None for a missing or unreadable one. */
  function ReadSpec(t: FileTree, path: string): Option<string>
  {
    if path in t.contents then Some(t.contents[path]) else None
  }

  /** The names directly inside dir; empty when the tree lists nothing for it. */
  function Listing(t: FileTree, dir: string): seq<string>
  {
    if dir in t.listing then t.listing[dir] else []
  }

  /** `parent / name` as a relative path; the root is "". */
  function Child(parent: string, name: string): string
  {
    if parent == "" then name else parent + "/" + name
  }
}
