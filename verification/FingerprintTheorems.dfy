/** The fingerprint stream is uniquely decodable, equal streams show equal files,
    and equal files give equal streams exactly as far as names do not tie. */
module FingerprintTheorems {
  import opened Util
  import opened Ordering
  import opened Fingerprint

  // ----- the decoder -----

  function ParseDecimal(s: string): Option<nat> {
    if s == "" then Some(0)
    else
      var init, last := ParseDecimal(s[..|s| - 1]), s[|s| - 1];
      if init.Some? && '0' <= last <= '9' then Some(init.value * 10 + (last as int - '0' as int)) else None
  }

  lemma {:induction false} ParseDecimalInverts(n: nat)
    ensures ParseDecimal(Decimal(n)) == Some(n)
  {
    if n >= 10 {
      ParseDecimalInverts(n / 10);
      assert Decimal(n)[..|Decimal(n)| - 1] == Decimal(n / 10);
    } else {
      assert Decimal(n)[..0] == "";
    }
  }

  /** Reads records off the front of a stream. */
  function Decode(s: string): Option<seq<(string, string)>>
    decreases |s|
  {
    if s == "" then Some([])
    else
      match CutAt('\0', s)
      case None => None
      case Some(tag) =>
        if tag.0 != "file" then None
        else
          match CutAt('\0', tag.1)
          case None => None
          case Some(path) =>
            match CutAt('\0', path.1)
            case None => None
            case Some(length) => DecodeBody(s, path.0, length.0, length.1)
  }

  function DecodeBody(s: string, path: string, digits: string, rest: string): Option<seq<(string, string)>>
    requires |rest| < |s|
    decreases |s|, 0
  {
    match ParseDecimal(digits)
    case None => None
    case Some(n) =>
      if n > |rest| then None
      else
        match Decode(rest[n..])
        case None => None
        case Some(more) => Some([(path, rest[..n])] + more)
  }

  lemma DecodeRecord(path: string, content: string, rest: string)
    requires '\0' !in path && Decode(rest).Some?
    ensures Decode(Record(path, content) + rest) == Some([(path, content)] + Decode(rest).value)
  {
    var digits, body := Decimal(|content|), content + rest;
    RecordShape(path, content, rest);
    CutFinds('\0', "file", path + ['\0'] + (digits + ['\0'] + body));
    CutFinds('\0', path, digits + ['\0'] + body);
    CutFinds('\0', digits, body);
    ParseDecimalInverts(|content|);
    assert body[|content|..] == rest && body[..|content|] == content;
  }

  lemma RecordShape(path: string, content: string, rest: string)
    ensures Record(path, content) + rest
            == "file" + ['\0'] + (path + ['\0'] + (Decimal(|content|) + ['\0'] + (content + rest)))
  {
    assert "file\0" == "file" + ['\0'] && "\0" == ['\0'];
    Regroup("file\0", path, ['\0'], Decimal(|content|), content, rest);
  }

  lemma Regroup(t: string, p: string, z: string, d: string, c: string, rest: string)
    ensures t + p + z + d + z + c + rest == t + (p + z + (d + z + (c + rest)))
  {
  }

  function Pair(f: FileEntry): (string, string) {
    (PathText(f.path), f.content)
  }

  function Pairs(files: seq<FileEntry>): (r: seq<(string, string)>)
    ensures |r| == |files| && forall i :: 0 <= i < |files| ==> r[i] == Pair(files[i])
  {
    if files == [] then [] else [Pair(files[0])] + Pairs(files[1..])
  }

  /** The decoder undoes the stream: its records are the files, in order. */
  lemma {:induction false} DecodeStream(files: seq<FileEntry>)
    requires forall i :: 0 <= i < |files| ==> '\0' !in PathText(files[i].path)
    ensures Decode(Stream(files)) == Some(Pairs(files))
  {
    if files != [] {
      var f, rest := files[0], files[1..];
      DecodeStream(rest);
      DecodeRecord(PathText(f.path), f.content, Stream(rest));
      ConcatAppend(RecordOf, [f], rest);
      assert files == [f] + rest;
      StreamOfOne(f);
    }
  }

  // ----- paths -----

  /** The names a file system allows. */
  predicate ValidName(name: string) {
    name != "" && '\0' !in name && '/' !in name
  }

  ghost predicate Named(node: Node) {
    node.Dir? ==> forall n :: n in node.children ==> ValidName(n) && Named(node.children[n])
  }

  predicate ValidPath(path: seq<string>) {
    forall i :: 0 <= i < |path| ==> ValidName(path[i])
  }

  lemma {:induction false} PathTextHasNoNul(path: seq<string>)
    requires ValidPath(path)
    ensures '\0' !in PathText(path)
  {
    if |path| > 1 {
      PathTextHasNoNul(path[1..]);
    }
  }

  lemma {:induction false} PathTextInjective(p: seq<string>, q: seq<string>)
    requires p != [] && q != [] && ValidPath(p) && ValidPath(q) && PathText(p) == PathText(q)
    ensures p == q
  {
    CutPath(p);
    CutPath(q);
    if |p| > 1 {
      PathTextInjective(p[1..], q[1..]);
      assert p == [p[0]] + p[1..] && q == [q[0]] + q[1..];
    }
  }

  lemma CutPath(p: seq<string>)
    requires p != [] && ValidPath(p)
    ensures CutAt('/', PathText(p)) == if |p| == 1 then None else Some((p[0], PathText(p[1..])))
  {
    assert ValidName(p[0]);
    if |p| == 1 {
      CutMisses('/', p[0]);
    } else {
      CutFinds('/', p[0], PathText(p[1..]));
    }
  }

  // ----- what a tree shows at a path -----

  /** The content of the file at `path` below `node`, if there is one and no
      name on the way is ignored. */
  function VisibleFile(r: Rules, node: Node, path: seq<string>): Option<string>
    decreases |path|
  {
    if path == [] then (if node.File? then Some(node.content) else None)
    else if node.Dir? && path[0] in node.children && !r.ignored(path[0])
    then VisibleFile(r, node.children[path[0]], path[1..])
    else None
  }

  lemma {:induction false} FilesUnderMember(r: Rules, read: Reader, dir: Node, path: seq<string>, names: seq<string>,
                                            f: FileEntry)
    requires dir.Dir? && Reads(read, dir, path) && forall x :: x in names ==> x in dir.children
    ensures f in FilesUnder(r, read, dir, path, names) <==>
            exists x :: x in names && f in FilesOf(r, read, dir.children[x], path + [x])
  {
    if names != [] {
      FilesUnderMember(r, read, dir, path, names[..|names| - 1], f);
    }
  }

  lemma {:induction false} FilesBelowPath(r: Rules, read: Reader, node: Node, path: seq<string>, f: FileEntry)
    requires Reads(read, node, path) && f in FilesOf(r, read, node, path)
    ensures path <= f.path
    decreases node
  {
    if node.Dir? {
      FilesUnderMember(r, read, node, path, Entries(r, read, path), f);
      var x :| x in Entries(r, read, path) && f in FilesOf(r, read, node.children[x], path + [x]);
      FilesBelowPath(r, read, node.children[x], path + [x], f);
    }
  }

  /** A file listed below an entry has the name of that entry next on its path. */
  lemma EntryOwnsFile(r: Rules, read: Reader, dir: Node, path: seq<string>, x: string, p: seq<string>, c: string)
    requires dir.Dir? && Reads(read, dir, path) && x in dir.children
    requires FileEntry(path + p, c) in FilesOf(r, read, dir.children[x], path + [x])
    ensures p != [] && p[0] == x
  {
    FilesBelowPath(r, read, dir.children[x], path + [x], FileEntry(path + p, c));
    assert (path + p)[|path|] == (path + [x])[|path|];
  }

  /** So a directory lists a file below exactly one entry, if at all. */
  lemma FilesOfEntry(r: Rules, read: Reader, dir: Node, path: seq<string>, p: seq<string>, c: string)
    requires dir.Dir? && Reads(read, dir, path)
    ensures FileEntry(path + p, c) in FilesOf(r, read, dir, path) <==>
            p != [] && p[0] in dir.children && !r.ignored(p[0])
            && FileEntry(path + p, c) in FilesOf(r, read, dir.children[p[0]], path + [p[0]])
  {
    var entries := Entries(r, read, path);
    FilesUnderMember(r, read, dir, path, entries, FileEntry(path + p, c));
    forall x | x in entries && FileEntry(path + p, c) in FilesOf(r, read, dir.children[x], path + [x])
      ensures p != [] && p[0] == x
    {
      EntryOwnsFile(r, read, dir, path, x, p, c);
    }
  }

  /** The files listed by the walk are exactly the visible ones, in whatever
      order directories are read. */
  lemma {:induction false} FilesIff(r: Rules, read: Reader, node: Node, path: seq<string>, p: seq<string>, c: string)
    requires Reads(read, node, path)
    ensures FileEntry(path + p, c) in FilesOf(r, read, node, path) <==> VisibleFile(r, node, p) == Some(c)
    decreases node
  {
    match node {
      case File(content) =>
        if p == [] { assert path + p == path; }
      case Special =>
      case Dir(children) =>
        FilesOfEntry(r, read, node, path, p, c);
        if p != [] && p[0] in children && !r.ignored(p[0]) {
          assert (path + [p[0]]) + p[1..] == path + p;
          FilesIff(r, read, children[p[0]], path + [p[0]], p[1..], c);
        }
    }
  }

  ghost predicate HasFile(r: Rules, node: Node) {
    exists p :: VisibleFile(r, node, p).Some?
  }

  ghost predicate SameFiles(r: Rules, a: Node, b: Node) {
    forall p :: VisibleFile(r, a, p) == VisibleFile(r, b, p)
  }

  // ----- equal streams show equal files -----

  lemma {:induction false} ListedPathsAreValid(r: Rules, read: Reader, node: Node, path: seq<string>, f: FileEntry)
    requires Reads(read, node, path) && Named(node) && ValidPath(path) && f in FilesOf(r, read, node, path)
    ensures ValidPath(f.path)
    ensures node.Dir? ==> |f.path| > |path|
    decreases node
  {
    if node.Dir? {
      var entries := Entries(r, read, path);
      FilesUnderMember(r, read, node, path, entries, f);
      var x :| x in entries && f in FilesOf(r, read, node.children[x], path + [x]);
      ListedPathsAreValid(r, read, node.children[x], path + [x], f);
      FilesBelowPath(r, read, node.children[x], path + [x], f);
    }
  }

  /** A tree and the order in which its directories are read. */
  ghost predicate IsTree(read: Reader, tree: Node) {
    tree.Dir? && Named(tree) && Reads(read, tree, [])
  }

  lemma TreeStreamDecodes(r: Rules, read: Reader, tree: Node)
    requires IsTree(read, tree)
    ensures Decode(Stream(FilesOf(r, read, tree, []))) == Some(Pairs(FilesOf(r, read, tree, [])))
  {
    var files := FilesOf(r, read, tree, []);
    forall i | 0 <= i < |files| ensures '\0' !in PathText(files[i].path) {
      ListedPathsAreValid(r, read, tree, [], files[i]);
      PathTextHasNoNul(files[i].path);
    }
    DecodeStream(files);
  }

  lemma SameStreamSameListing(r: Rules, readA: Reader, a: Node, readB: Reader, b: Node)
    requires IsTree(readA, a) && IsTree(readB, b)
    requires Stream(FilesOf(r, readA, a, [])) == Stream(FilesOf(r, readB, b, []))
    ensures FilesOf(r, readA, a, []) == FilesOf(r, readB, b, [])
  {
    var fa, fb := FilesOf(r, readA, a, []), FilesOf(r, readB, b, []);
    TreeStreamDecodes(r, readA, a);
    TreeStreamDecodes(r, readB, b);
    assert Pairs(fa) == Pairs(fb);
    forall i | 0 <= i < |fa| ensures fa[i] == fb[i] {
      assert Pairs(fa)[i] == Pairs(fb)[i];
      ListedPathsAreValid(r, readA, a, [], fa[i]);
      ListedPathsAreValid(r, readB, b, [], fb[i]);
      PathTextInjective(fa[i].path, fb[i].path);
    }
  }

  /** Two workspaces with one stream show the same file, or no file, at every
      path, whatever the order of names and of reading. */
  lemma SameStreamSameFiles(r: Rules, readA: Reader, a: Node, readB: Reader, b: Node)
    requires IsTree(readA, a) && IsTree(readB, b)
    requires Stream(FilesOf(r, readA, a, [])) == Stream(FilesOf(r, readB, b, []))
    ensures SameFiles(r, a, b)
  {
    SameStreamSameListing(r, readA, a, readB, b);
    forall p ensures VisibleFile(r, a, p) == VisibleFile(r, b, p) {
      if VisibleFile(r, a, p).Some? { SameEntryShows(r, readA, a, readB, b, p, VisibleFile(r, a, p).value); }
      if VisibleFile(r, b, p).Some? { SameEntryShows(r, readA, a, readB, b, p, VisibleFile(r, b, p).value); }
    }
  }

  lemma SameEntryShows(r: Rules, readA: Reader, a: Node, readB: Reader, b: Node, p: seq<string>, c: string)
    requires Reads(readA, a, []) && Reads(readB, b, [])
    requires FilesOf(r, readA, a, []) == FilesOf(r, readB, b, [])
    ensures VisibleFile(r, a, p) == Some(c) <==> VisibleFile(r, b, p) == Some(c)
  {
    FilesIff(r, readA, a, [], p, c);
    FilesIff(r, readB, b, [], p, c);
    assert [] + p == p;
  }

  // ----- equal files give equal listings -----

  /** The visible names below which there is a file. */
  ghost function NamesWithFiles(r: Rules, dir: Node): set<string>
    requires dir.Dir?
  {
    set x | x in VisibleNames(r, dir) && HasFile(r, dir.children[x])
  }

  /** Below `node`, no two siblings with files tie. */
  ghost predicate UntiedFiles(r: Rules, node: Node) {
    node.Dir? ==>
      && Untied(r.le, NamesWithFiles(r, node))
      && forall x :: x in NamesWithFiles(r, node) ==> UntiedFiles(r, node.children[x])
  }

  lemma NoFileNoEntries(r: Rules, read: Reader, node: Node, path: seq<string>)
    requires Reads(read, node, path) && !HasFile(r, node)
    ensures FilesOf(r, read, node, path) == []
  {
    var files := FilesOf(r, read, node, path);
    if files != [] {
      var f := files[0];
      FilesBelowPath(r, read, node, path, f);
      var p := f.path[|path|..];
      assert f == FileEntry(path + p, f.content);
      FilesIff(r, read, node, path, p, f.content);
    }
  }

  lemma FilesUnderLast(r: Rules, read: Reader, dir: Node, path: seq<string>, init: seq<string>, last: string)
    requires dir.Dir? && Reads(read, dir, path) && last in dir.children && forall x :: x in init ==> x in dir.children
    ensures FilesUnder(r, read, dir, path, init + [last])
            == FilesUnder(r, read, dir, path, init) + FilesUnder(r, read, dir, path, [last])
  {
    assert (init + [last])[..|init|] == init && [last][..0] == [];
  }

  lemma {:induction false} FilesUnderAppend(r: Rules, read: Reader, dir: Node, path: seq<string>, s: seq<string>,
                                            t: seq<string>)
    requires dir.Dir? && Reads(read, dir, path)
    requires (forall x :: x in s ==> x in dir.children) && forall x :: x in t ==> x in dir.children
    ensures FilesUnder(r, read, dir, path, s + t)
            == FilesUnder(r, read, dir, path, s) + FilesUnder(r, read, dir, path, t)
  {
    if t == [] {
      assert s + t == s;
    } else {
      hide *;
      var init, last := t[..|t| - 1], t[|t| - 1];
      assert t == init + [last] && s + t == (s + init) + [last];
      FilesUnderAppend(r, read, dir, path, s, init);
      FilesUnderLast(r, read, dir, path, init, last);
      FilesUnderLast(r, read, dir, path, s + init, last);
      AppendOnce(FilesUnder(r, read, dir, path, s), FilesUnder(r, read, dir, path, init),
                 FilesUnder(r, read, dir, path, [last]));
    }
  }

  lemma AppendOnce<T>(a: seq<T>, b: seq<T>, c: seq<T>)
    ensures (a + b) + c == a + (b + c)
  {
  }

  lemma FilesUnderOne(r: Rules, read: Reader, dir: Node, path: seq<string>, x: string)
    requires dir.Dir? && Reads(read, dir, path) && x in dir.children
    ensures FilesUnder(r, read, dir, path, [x]) == FilesOf(r, read, dir.children[x], path + [x])
  {
    assert [x][..0] == [];
  }

  /** Names without files can be left out. */
  lemma {:induction false} DropEmpty(r: Rules, read: Reader, dir: Node, path: seq<string>, p: string -> bool,
                                     names: seq<string>)
    requires dir.Dir? && Reads(read, dir, path) && forall x :: x in names ==> x in dir.children
    requires forall x :: x in names && !p(x) ==> FilesOf(r, read, dir.children[x], path + [x]) == []
    ensures FilesUnder(r, read, dir, path, names) == FilesUnder(r, read, dir, path, Filter(p, names))
  {
    if names != [] {
      var head, rest := names[0], names[1..];
      assert names == [head] + rest;
      FilesUnderAppend(r, read, dir, path, [head], rest);
      FilesUnderOne(r, read, dir, path, head);
      DropEmpty(r, read, dir, path, p, rest);
      if p(head) {
        FilesUnderAppend(r, read, dir, path, [head], Filter(p, rest));
      } else {
        assert Filter(p, names) == Filter(p, rest);
      }
    }
  }

  lemma {:induction false} SameUnder(r: Rules, readA: Reader, a: Node, readB: Reader, b: Node, path: seq<string>,
                                     names: seq<string>)
    requires a.Dir? && b.Dir? && Reads(readA, a, path) && Reads(readB, b, path)
    requires forall x :: x in names ==> x in a.children && x in b.children
    requires forall x :: x in names ==>
               FilesOf(r, readA, a.children[x], path + [x]) == FilesOf(r, readB, b.children[x], path + [x])
    ensures FilesUnder(r, readA, a, path, names) == FilesUnder(r, readB, b, path, names)
  {
    if names != [] {
      SameUnder(r, readA, a, readB, b, path, names[..|names| - 1]);
    }
  }

  /** The entries with files: a sorted list of exactly these names. */
  lemma FilesOfDir(r: Rules, read: Reader, dir: Node, path: seq<string>) returns (kept: seq<string>)
    requires TotalPreorder(r.le) && dir.Dir? && Reads(read, dir, path)
    ensures ListsOut(kept, NamesWithFiles(r, dir)) && Sorted(r.le, kept)
    ensures forall x :: x in kept ==> x in dir.children
    ensures FilesOf(r, read, dir, path) == FilesUnder(r, read, dir, path, kept)
  {
    var names := NamesWithFiles(r, dir);
    var p := (x: string) => x in names;
    var entries := Entries(r, read, path);
    kept := Filter(p, entries);
    forall x | x in entries && !p(x) ensures FilesOf(r, read, dir.children[x], path + [x]) == [] {
      NoFileNoEntries(r, read, dir.children[x], path + [x]);
    }
    DropEmpty(r, read, dir, path, p, entries);
    EntriesAreSorted(r, read, dir, path);
    FilterKeepsDistinct(p, entries);
    FilterKeepsSorted(r.le, p, entries);
  }

  lemma EntriesAreSorted(r: Rules, read: Reader, dir: Node, path: seq<string>)
    requires TotalPreorder(r.le) && dir.Dir? && Reads(read, dir, path)
    ensures ListsOut(Entries(r, read, path), VisibleNames(r, dir)) && Sorted(r.le, Entries(r, read, path))
  {
    FilterKeepsDistinct(Visible(r), read(path));
    SortKeepsDistinct(r.le, Filter(Visible(r), read(path)));
    SortSorts(r.le, Filter(Visible(r), read(path)));
  }

  lemma ChildShows(r: Rules, dir: Node, x: string, p: seq<string>)
    requires dir.Dir? && x in VisibleNames(r, dir)
    ensures VisibleFile(r, dir, [x] + p) == VisibleFile(r, dir.children[x], p)
  {
    assert ([x] + p)[1..] == p;
  }

  lemma SameNamesWithFiles(r: Rules, a: Node, b: Node, x: string)
    requires a.Dir? && b.Dir? && SameFiles(r, a, b) && x in NamesWithFiles(r, a)
    ensures x in NamesWithFiles(r, b) && SameFiles(r, a.children[x], b.children[x])
  {
    var p :| VisibleFile(r, a.children[x], p).Some?;
    ChildShows(r, a, x, p);
    assert VisibleFile(r, b, [x] + p).Some?;
    assert x in VisibleNames(r, b);
    forall q ensures VisibleFile(r, a.children[x], q) == VisibleFile(r, b.children[x], q) {
      ChildShows(r, a, x, q);
      ChildShows(r, b, x, q);
      assert VisibleFile(r, a, [x] + q) == VisibleFile(r, b, [x] + q);
    }
    assert VisibleFile(r, b.children[x], p).Some?;
  }

  lemma SameNames(r: Rules, a: Node, b: Node)
    requires a.Dir? && b.Dir? && SameFiles(r, a, b)
    ensures NamesWithFiles(r, a) == NamesWithFiles(r, b)
  {
    forall x | x in NamesWithFiles(r, a) ensures x in NamesWithFiles(r, b) { SameNamesWithFiles(r, a, b, x); }
    forall x | x in NamesWithFiles(r, b) ensures x in NamesWithFiles(r, a) { SameNamesWithFiles(r, b, a, x); }
  }

  /** Trees that show the same files are listed alike, in whatever order they are
      read, when no two siblings with files tie. */
  lemma {:induction false} SameFilesSameListing(r: Rules, readA: Reader, a: Node, readB: Reader, b: Node,
                                                path: seq<string>)
    requires TotalPreorder(r.le) && Reads(readA, a, path) && Reads(readB, b, path)
    requires SameFiles(r, a, b) && UntiedFiles(r, a)
    ensures FilesOf(r, readA, a, path) == FilesOf(r, readB, b, path)
    decreases a
  {
    assert VisibleFile(r, a, []) == VisibleFile(r, b, []);
    if a.Dir? && b.Dir? {
      SameNames(r, a, b);
      var names := FilesOfDir(r, readA, a, path);
      var names' := FilesOfDir(r, readB, b, path);
      SortedIsUnique(r.le, names, names', NamesWithFiles(r, a));
      forall x | x in names
        ensures x in b.children
                && FilesOf(r, readA, a.children[x], path + [x]) == FilesOf(r, readB, b.children[x], path + [x])
      {
        SameNamesWithFiles(r, a, b, x);
        SameFilesSameListing(r, readA, a.children[x], readB, b.children[x], path + [x]);
      }
      SameUnder(r, readA, a, readB, b, path, names);
    } else if !(a.File? && b.File?) {
      FlatNodeHasNoFile(r, a, b);
      FlatNodeHasNoFile(r, b, a);
      NoFileNoEntries(r, readA, a, path);
      NoFileNoEntries(r, readB, b, path);
    }
  }

  lemma FlatNodeHasNoFile(r: Rules, a: Node, b: Node)
    requires SameFiles(r, a, b) && !(a.Dir? && b.Dir?) && !a.File? && !b.File?
    ensures !HasFile(r, a)
  {
    forall p ensures VisibleFile(r, a, p).None? {
      assert VisibleFile(r, a, p) == VisibleFile(r, b, p);
    }
  }

  /** Without ties, two workspaces have the same fingerprint stream exactly when
      they show the same file, or no file, at every path. */
  lemma StreamIdentifiesTree(r: Rules, readA: Reader, a: Node, readB: Reader, b: Node)
    requires TotalPreorder(r.le) && IsTree(readA, a) && IsTree(readB, b) && UntiedFiles(r, a)
    ensures Stream(FilesOf(r, readA, a, [])) == Stream(FilesOf(r, readB, b, [])) <==> SameFiles(r, a, b)
  {
    if SameFiles(r, a, b) {
      SameFilesSameListing(r, readA, a, readB, b, []);
    }
    if Stream(FilesOf(r, readA, a, [])) == Stream(FilesOf(r, readB, b, [])) {
      SameStreamSameFiles(r, readA, a, readB, b);
    }
  }

  // ----- the counters -----

  /** The counters agree with what the decoder reads back. */
  lemma CountersMatchRecords(r: Rules, read: Reader, tree: Node)
    requires IsTree(read, tree)
    ensures var files := FilesOf(r, read, tree, []);
            var records := Decode(Stream(files));
            records.Some? && |records.value| == |files| && ContentTotal(records.value) == ByteTotal(files)
  {
    TreeStreamDecodes(r, read, tree);
    ContentOfPairs(FilesOf(r, read, tree, []));
  }

  function ContentTotal(records: seq<(string, string)>): nat {
    if records == [] then 0 else ContentTotal(records[..|records| - 1]) + |records[|records| - 1].1|
  }

  lemma {:induction false} ContentOfPairs(files: seq<FileEntry>)
    ensures ContentTotal(Pairs(files)) == ByteTotal(files)
  {
    if files != [] {
      ContentOfPairs(files[..|files| - 1]);
      assert Pairs(files)[..|files| - 1] == Pairs(files[..|files| - 1]);
    }
  }
}
