/** The workspace fingerprint: the byte stream fed to the hash, read back by a
    decoder, and what it says about a directory tree. One character stands for
    one byte, of a name in its encoding or of a file. */
module Fingerprint {
  import opened Util
  import opened Ordering

  /** A directory is a map, so names in one directory are distinct. `Special`
      is neither file nor directory. */
  datatype Node = File(content: string) | Dir(children: map<string, Node>) | Special

  datatype FileEntry = FileEntry(path: seq<string>, content: string)

  /** The order that stands for `localeCompare`, and the ignored names. */
  datatype Rules = Rules(le: (string, string) -> bool, ignored: string -> bool)

  /** The names of a directory in the order in which the file system gives them,
      by the path of the directory. */
  type Reader = seq<string> -> seq<string>

  /** The reader gives every name of every directory below `path` once. */
  ghost predicate Reads(read: Reader, node: Node, path: seq<string>) {
    node.Dir? ==>
      && ListsOut(read(path), node.children.Keys)
      && forall x :: x in node.children ==> Reads(read, node.children[x], path + [x])
  }

  // ----- the files of a tree -----

  function Visible(r: Rules): string -> bool {
    (name: string) => !r.ignored(name)
  }

  /** The entries that a visit goes through, in order. */
  function Entries(r: Rules, read: Reader, path: seq<string>): (s: seq<string>)
    ensures forall x :: x in s <==> x in read(path) && !r.ignored(x)
  {
    Sort(r.le, Filter(Visible(r), read(path)))
  }

  function FilesOf(r: Rules, read: Reader, node: Node, path: seq<string>): seq<FileEntry>
    requires Reads(read, node, path)
    decreases node, 1, 0
  {
    match node
    case File(content) => [FileEntry(path, content)]
    case Special => []
    case Dir(children) => FilesUnder(r, read, node, path, Entries(r, read, path))
  }

  function FilesUnder(r: Rules, read: Reader, dir: Node, path: seq<string>, names: seq<string>): seq<FileEntry>
    requires dir.Dir? && Reads(read, dir, path) && forall x :: x in names ==> x in dir.children
    decreases dir, 0, |names|
  {
    if names == [] then []
    else
      var init, last := names[..|names| - 1], names[|names| - 1];
      FilesUnder(r, read, dir, path, init) + FilesOf(r, read, dir.children[last], path + [last])
  }

  // ----- the stream -----

  function Digit(d: nat): char
    requires d < 10
  {
    ('0' as int + d) as char
  }

  /** `String(n)` for a length. */
  function Decimal(n: nat): (r: string)
    ensures r != "" && '\0' !in r
  {
    if n < 10 then [Digit(n)] else Decimal(n / 10) + [Digit(n % 10)]
  }

  function Record(path: string, content: string): string {
    "file\0" + path + "\0" + Decimal(|content|) + "\0" + content
  }

  function PathText(path: seq<string>): string {
    Join(path, "/")
  }

  function RecordOf(file: FileEntry): string {
    Record(PathText(file.path), file.content)
  }

  function Stream(files: seq<FileEntry>): string {
    Concat(RecordOf, files)
  }

  function ByteTotal(files: seq<FileEntry>): nat {
    if files == [] then 0 else ByteTotal(files[..|files| - 1]) + |files[|files| - 1].content|
  }

  lemma {:induction false} ByteTotalAppend(a: seq<FileEntry>, b: seq<FileEntry>)
    ensures ByteTotal(a + b) == ByteTotal(a) + ByteTotal(b)
  {
    if b == [] {
      assert a + b == a;
    } else {
      assert (a + b)[..|a + b| - 1] == a + b[..|b| - 1];
      ByteTotalAppend(a, b[..|b| - 1]);
    }
  }

  lemma StreamOfOne(f: FileEntry)
    ensures Stream([f]) == RecordOf(f)
    ensures ByteTotal([f]) == |f.content|
  {
    ConcatOne(RecordOf, f);
    assert [f][..0] == [];
  }

  // ----- the walk -----

  /** The hash under construction and the two counters that the walk updates. */
  class Walk {
    const rules: Rules
    const read: Reader
    var stream: string
    var fileCount: nat
    var byteCount: nat

    constructor (rules: Rules, read: Reader)
      ensures this.rules == rules && this.read == read && stream == "" && fileCount == 0 && byteCount == 0
    {
      this.rules := rules;
      this.read := read;
      stream, fileCount, byteCount := "", 0, 0;
    }

    /** The state is the given one with `files` taken in. */
    ghost predicate Took(stream0: string, files0: nat, bytes0: nat, files: seq<FileEntry>)
      reads this
    {
      stream == stream0 + Stream(files) && fileCount == files0 + |files| && byteCount == bytes0 + ByteTotal(files)
    }

    method Visit(dir: Node, path: seq<string>)
      requires dir.Dir? && Reads(read, dir, path)
      modifies this
      ensures Took(old(stream), old(fileCount), old(byteCount), FilesOf(rules, read, dir, path))
      decreases dir, 0, 1
    {
      var entries := Sort(rules.le, Filter(Visible(rules), read(path)));
      assert entries == Entries(rules, read, path);
      VisitEntries(dir, path, entries);
    }

    method VisitEntries(dir: Node, path: seq<string>, entries: seq<string>)
      requires dir.Dir? && Reads(read, dir, path) && forall x :: x in entries ==> x in dir.children
      modifies this
      ensures Took(old(stream), old(fileCount), old(byteCount), FilesUnder(rules, read, dir, path, entries))
      decreases dir, 0, 0
    {
      for i := 0 to |entries|
        invariant Took(old(stream), old(fileCount), old(byteCount), FilesUnder(rules, read, dir, path, entries[..i]))
      {
        var name := entries[i];
        FilesUnderStep(rules, read, dir, path, entries, i, old(stream));
        VisitEntry(dir.children[name], path + [name]);
      }
      assert entries[..|entries|] == entries;
    }

    /** One turn of the loop over the entries of a directory. */
    method VisitEntry(entry: Node, path: seq<string>)
      requires Reads(read, entry, path)
      modifies this
      ensures Took(old(stream), old(fileCount), old(byteCount), FilesOf(rules, read, entry, path))
      decreases entry, 1, 0
    {
      match entry {
        case Dir(_) => Visit(entry, path);
        case Special =>
        case File(content) =>
          StreamOfOne(FileEntry(path, content));
          stream := stream + Record(PathText(path), content);
          fileCount, byteCount := fileCount + 1, byteCount + |content|;
      }
    }
  }

  lemma FilesUnderStep(r: Rules, read: Reader, dir: Node, path: seq<string>, entries: seq<string>, i: nat,
                       before: string)
    requires dir.Dir? && Reads(read, dir, path) && i < |entries| && forall x :: x in entries ==> x in dir.children
    ensures forall x :: x in entries[..i] ==> x in entries
    ensures forall x :: x in entries[..i + 1] ==> x in entries
    ensures var done := FilesUnder(r, read, dir, path, entries[..i]);
            var more := FilesOf(r, read, dir.children[entries[i]], path + [entries[i]]);
            var all := FilesUnder(r, read, dir, path, entries[..i + 1]);
            && all == done + more
            && before + Stream(all) == before + Stream(done) + Stream(more)
            && ByteTotal(all) == ByteTotal(done) + ByteTotal(more)
  {
    assert entries[..i + 1][..i] == entries[..i];
    StreamStep(before, FilesUnder(r, read, dir, path, entries[..i]),
               FilesOf(r, read, dir.children[entries[i]], path + [entries[i]]));
  }

  lemma StreamStep(before: string, done: seq<FileEntry>, more: seq<FileEntry>)
    ensures before + Stream(done + more) == before + Stream(done) + Stream(more)
    ensures ByteTotal(done + more) == ByteTotal(done) + ByteTotal(more)
  {
    ConcatAppend(RecordOf, done, more);
    ByteTotalAppend(done, more);
  }

  /** The entries of a directory are the same in whatever order it is read,
      exactly when no two of its visible names tie. */
  lemma EntriesIgnoreOrderIff(r: Rules, dir: Node)
    requires TotalPreorder(r.le) && dir.Dir?
    ensures (forall s, t | ListsOut(s, dir.children.Keys) && ListsOut(t, dir.children.Keys) ::
               Sort(r.le, Filter(Visible(r), s)) == Sort(r.le, Filter(Visible(r), t))) <==>
            Untied(r.le, VisibleNames(r, dir))
  {
    var names, visible := dir.children.Keys, VisibleNames(r, dir);
    if Untied(r.le, visible) {
      forall s, t | ListsOut(s, names) && ListsOut(t, names)
        ensures Sort(r.le, Filter(Visible(r), s)) == Sort(r.le, Filter(Visible(r), t))
      {
        FilterKeepsDistinct(Visible(r), s);
        FilterKeepsDistinct(Visible(r), t);
        SortsAlike(r.le, Filter(Visible(r), s), Filter(Visible(r), t), visible);
      }
    } else {
      var a, b :| a in visible && b in visible && a != b && Tie(r.le, a, b);
      var s, t := EnumerateFrom(names, a, b);
      TiedEntries(r, s, t, a, b);
    }
  }

  /** Two tied names at the front of the read names keep their order. */
  lemma TiedEntries(r: Rules, s: seq<string>, t: seq<string>, a: string, b: string)
    requires Tie(r.le, a, b) && !r.ignored(a) && !r.ignored(b) && NoDuplicates(s)
    requires |s| >= 2 && s[0] == a && s[1] == b && |t| >= 2 && t[0] == b && t[1] == a
    ensures Before(Sort(r.le, Filter(Visible(r), s)), a, b) && Before(Sort(r.le, Filter(Visible(r), t)), b, a)
    ensures Sort(r.le, Filter(Visible(r), s)) != Sort(r.le, Filter(Visible(r), t))
  {
    TiedPairFirst(r, s, a, b);
    TiedPairFirst(r, t, b, a);
    FilterKeepsDistinct(Visible(r), s);
    SortKeepsDistinct(r.le, Filter(Visible(r), s));
    BeforeIsOneWay(Sort(r.le, Filter(Visible(r), s)), a, b);
  }

  lemma TiedPairFirst(r: Rules, s: seq<string>, a: string, b: string)
    requires r.le(a, b) && !r.ignored(a) && !r.ignored(b) && |s| >= 2 && s[0] == a && s[1] == b
    ensures Before(Sort(r.le, Filter(Visible(r), s)), a, b)
  {
    FilterKeepsBefore(Visible(r), s, 0, 1);
    var kept := Filter(Visible(r), s);
    var i, j :| 0 <= i < j < |kept| && kept[i] == a && kept[j] == b;
    SortKeepsBefore(r.le, kept, i, j);
  }

  /** The names of a directory that are not ignored. */
  ghost function VisibleNames(r: Rules, dir: Node): set<string>
    requires dir.Dir?
  {
    set x | x in dir.children && !r.ignored(x)
  }
}
