/** The fingerprint of a workspace: the walk from the root, with the ignored
    names of the runner, finished by a hash that is a parameter here. */
module Workspace {
  import opened Util
  import opened Ordering
  import opened Fingerprint
  import opened FingerprintTheorems

  /** `shouldIgnoreWorkspaceEntry` */
  predicate IsIgnored(name: string) {
    || name == ".aionis" || name == ".git" || name == ".next" || name == ".turbo" || name == ".vite"
    || name == "__pycache__" || name == "build" || name == "coverage" || name == "dist"
    || name == "node_modules" || name == "venv" || name == ".venv"
  }

  datatype WorkspaceFingerprint = WorkspaceFingerprint(hash: string, fileCount: nat, byteCount: nat)

  function RulesFor(le: (string, string) -> bool): Rules {
    Rules(le, IsIgnored)
  }

  /** The fingerprint of a workspace whose directories are read by `read`. */
  function FingerprintOf(le: (string, string) -> bool, sha: string -> string, read: Reader, root: Node)
    : WorkspaceFingerprint
    requires Reads(read, root, [])
  {
    var files := FilesOf(RulesFor(le), read, root, []);
    WorkspaceFingerprint(sha(Stream(files)), |files|, ByteTotal(files))
  }

  /** A missing root has no fingerprint. */
  method ComputeFingerprint(le: (string, string) -> bool, sha: string -> string, read: Reader, root: Option<Node>)
    returns (r: Option<WorkspaceFingerprint>)
    requires root.Some? ==> root.value.Dir? && Reads(read, root.value, [])
    ensures root.None? ==> r.None?
    ensures root.Some? ==> r == Some(FingerprintOf(le, sha, read, root.value))
  {
    if root.None? { return None; }
    var walk := new Walk(RulesFor(le), read);
    walk.Visit(root.value, []);
    assert walk.stream == Stream(FilesOf(RulesFor(le), read, root.value, []));
    r := Some(WorkspaceFingerprint(sha(walk.stream), walk.fileCount, walk.byteCount));
  }

  /** The hash does not collide on the streams of the two workspaces. */
  ghost predicate NoCollision(le: (string, string) -> bool, sha: string -> string, readA: Reader, a: Node,
                              readB: Reader, b: Node)
    requires Reads(readA, a, []) && Reads(readB, b, [])
  {
    var s, t := Stream(FilesOf(RulesFor(le), readA, a, [])), Stream(FilesOf(RulesFor(le), readB, b, []));
    sha(s) == sha(t) ==> s == t
  }

  /** Absent a collision, workspaces with equal hashes show the same files,
      whatever the order of names and of reading. */
  lemma EqualHashesShowSameFiles(le: (string, string) -> bool, sha: string -> string, readA: Reader, a: Node,
                                 readB: Reader, b: Node)
    requires IsTree(readA, a) && IsTree(readB, b) && NoCollision(le, sha, readA, a, readB, b)
    requires FingerprintOf(le, sha, readA, a).hash == FingerprintOf(le, sha, readB, b).hash
    ensures SameFiles(RulesFor(le), a, b)
  {
    SameStreamSameFiles(RulesFor(le), readA, a, readB, b);
  }

  /** Without ties, workspaces that show the same files have equal fingerprints. */
  lemma SameFilesEqualFingerprints(le: (string, string) -> bool, sha: string -> string, readA: Reader, a: Node,
                                   readB: Reader, b: Node)
    requires TotalPreorder(le) && UntiedFiles(RulesFor(le), a) && Reads(readA, a, []) && Reads(readB, b, [])
    requires SameFiles(RulesFor(le), a, b)
    ensures FingerprintOf(le, sha, readA, a) == FingerprintOf(le, sha, readB, b)
  {
    SameFilesSameListing(RulesFor(le), readA, a, readB, b, []);
  }
}
