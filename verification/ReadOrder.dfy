/** When the fingerprint stream depends on the order in which a file system gives
    the names of a directory. */
module ReadOrder {
  import opened Util
  import opened Ordering
  import opened Fingerprint
  import opened FingerprintTheorems

  // ----- every tree can be read -----

  function NodeAt(node: Node, path: seq<string>): Option<Node>
    decreases |path|
  {
    if path == [] then Some(node)
    else if node.Dir? && path[0] in node.children then NodeAt(node.children[path[0]], path[1..])
    else None
  }

  lemma {:induction false} NodeAtChild(node: Node, path: seq<string>, x: string)
    ensures NodeAt(node, path + [x]) ==
            match NodeAt(node, path)
            case None => None
            case Some(n) => if n.Dir? && x in n.children then Some(n.children[x]) else None
  {
    if path != [] {
      assert (path + [x])[1..] == path[1..] + [x];
      if node.Dir? && path[0] in node.children {
        NodeAtChild(node.children[path[0]], path[1..], x);
      }
    } else {
      assert ([] + [x])[1..] == [];
      if node.Dir? && x in node.children {
        assert NodeAt(node.children[x], []) == Some(node.children[x]);
      }
    }
  }

  ghost function SomeList(names: set<string>): (s: seq<string>)
    ensures ListsOut(s, names)
  {
    assert exists s :: ListsOut(s, names) by {
      var s := Enumerate(names);
    }
    var s :| ListsOut(s, names);
    s
  }

  /** A reader of the tree that stands at `path`. */
  ghost function ReaderOf(tree: Node, path: seq<string>): Reader {
    (p: seq<string>) => NamesAt(tree, path, p)
  }

  ghost function NamesAt(tree: Node, path: seq<string>, p: seq<string>): seq<string> {
    if path <= p && NodeAt(tree, p[|path|..]).Some? && NodeAt(tree, p[|path|..]).value.Dir?
    then SomeList(NodeAt(tree, p[|path|..]).value.children.Keys)
    else []
  }

  lemma {:induction false} ReaderReadsBelow(tree: Node, path: seq<string>, rel: seq<string>, node: Node)
    requires NodeAt(tree, rel) == Some(node)
    ensures Reads(ReaderOf(tree, path), node, path + rel)
    decreases node
  {
    assert (path + rel)[|path|..] == rel;
    if node.Dir? {
      forall x | x in node.children ensures Reads(ReaderOf(tree, path), node.children[x], path + rel + [x]) {
        NodeAtChild(tree, rel, x);
        ReaderReadsBelow(tree, path, rel + [x], node.children[x]);
        assert path + (rel + [x]) == path + rel + [x];
      }
    }
  }

  lemma ReaderReads(tree: Node, path: seq<string>)
    ensures Reads(ReaderOf(tree, path), tree, path)
  {
    ReaderReadsBelow(tree, path, [], tree);
    assert path + [] == path;
  }

  // ----- readers that agree below a path -----

  ghost predicate AgreeBelow(a: Reader, b: Reader, path: seq<string>) {
    forall p :: path <= p ==> a(p) == b(p)
  }

  lemma AgreeDeeper(a: Reader, b: Reader, path: seq<string>, x: string)
    requires AgreeBelow(a, b, path)
    ensures AgreeBelow(a, b, path + [x])
  {
    forall p | path + [x] <= p ensures a(p) == b(p) {
      assert path <= p;
    }
  }

  lemma {:induction false} AgreeingReaders(r: Rules, a: Reader, b: Reader, node: Node, path: seq<string>)
    requires AgreeBelow(a, b, path) && Reads(a, node, path)
    ensures Reads(b, node, path) && FilesOf(r, a, node, path) == FilesOf(r, b, node, path)
    decreases node
  {
    if node.Dir? {
      forall x | x in node.children
        ensures Reads(b, node.children[x], path + [x])
        ensures FilesOf(r, a, node.children[x], path + [x]) == FilesOf(r, b, node.children[x], path + [x])
      {
        AgreeDeeper(a, b, path, x);
        AgreeingReaders(r, a, b, node.children[x], path + [x]);
      }
      assert a(path) == b(path);
      SameUnder(r, a, node, b, node, path, Entries(r, a, path));
    }
  }

  /** One directory read in the given order, everything else as before. */
  ghost function ReadAs(base: Reader, path: seq<string>, names: seq<string>): Reader {
    (p: seq<string>) => if p == path then names else base(p)
  }

  lemma ReadAsReads(base: Reader, dir: Node, path: seq<string>, names: seq<string>)
    requires dir.Dir? && Reads(base, dir, path) && ListsOut(names, dir.children.Keys)
    ensures Reads(ReadAs(base, path, names), dir, path)
  {
    var read := ReadAs(base, path, names);
    forall x | x in dir.children ensures Reads(read, dir.children[x], path + [x]) {
      assert AgreeBelow(base, read, path + [x]);
      AgreeingReaders(Rules((a, b) => true, a => false), base, read, dir.children[x], path + [x]);
    }
  }

  /** Everything below `path` read by one reader, the rest by another. */
  ghost function ReadBelow(base: Reader, path: seq<string>, below: Reader): Reader {
    (p: seq<string>) => if path <= p then below(p) else base(p)
  }

  lemma ReadBelowReads(base: Reader, dir: Node, path: seq<string>, x: string, below: Reader)
    requires dir.Dir? && Reads(base, dir, path) && x in dir.children && Reads(below, dir.children[x], path + [x])
    ensures Reads(ReadBelow(base, path + [x], below), dir, path)
  {
    var read := ReadBelow(base, path + [x], below);
    var any := Rules((a, b) => true, a => false);
    forall y | y in dir.children ensures Reads(read, dir.children[y], path + [y]) {
      if y == x {
        assert AgreeBelow(below, read, path + [x]);
        AgreeingReaders(any, below, read, dir.children[x], path + [x]);
      } else {
        ApartBelow(base, below, path, x, y);
        AgreeingReaders(any, base, read, dir.children[y], path + [y]);
      }
    }
    assert !(path + [x] <= path);
  }

  lemma ApartBelow(base: Reader, below: Reader, path: seq<string>, x: string, y: string)
    requires x != y
    ensures AgreeBelow(base, ReadBelow(base, path + [x], below), path + [y])
  {
    forall p | path + [y] <= p ensures base(p) == ReadBelow(base, path + [x], below)(p) {
      NextName(path, x, p);
      NextName(path, y, p);
    }
  }

  lemma NextName(path: seq<string>, x: string, p: seq<string>)
    ensures path + [x] <= p ==> |p| > |path| && p[|path|] == x
  {
    if path + [x] <= p {
      assert p[|path|] == (path + [x])[|path|];
    }
  }

  // ----- files in order -----

  /** Entries in order give their files in order. */
  lemma EntriesOrderFiles(r: Rules, read: Reader, dir: Node, path: seq<string>, x: string, y: string,
                          f: FileEntry, g: FileEntry)
    requires dir.Dir? && Reads(read, dir, path) && Before(Entries(r, read, path), x, y)
    requires x in dir.children && y in dir.children
    requires f in FilesOf(r, read, dir.children[x], path + [x]) && g in FilesOf(r, read, dir.children[y], path + [y])
    ensures Before(FilesOf(r, read, dir, path), f, g)
  {
    var entries := Entries(r, read, path);
    var i, j :| 0 <= i < j < |entries| && entries[i] == x && entries[j] == y;
    var front, back := entries[..j], entries[j..];
    assert entries == front + back;
    assert front[i] == x && back[0] == y;
    assert forall e :: e in front || e in back ==> e in entries;
    FilesUnderAppend(r, read, dir, path, front, back);
    FilesUnderMember(r, read, dir, path, front, f);
    FilesUnderMember(r, read, dir, path, back, g);
    BeforeAcross(FilesUnder(r, read, dir, path, front), FilesUnder(r, read, dir, path, back), f, g);
  }

  /** Files in order below an entry are in order in the directory. */
  lemma OrderLifts(r: Rules, read: Reader, dir: Node, path: seq<string>, x: string, f: FileEntry, g: FileEntry)
    requires dir.Dir? && Reads(read, dir, path) && x in VisibleNames(r, dir)
    requires Before(FilesOf(r, read, dir.children[x], path + [x]), f, g)
    ensures Before(FilesOf(r, read, dir, path), f, g)
  {
    var before, after := FilesAround(r, read, dir, path, x);
    BeforeInside(before, FilesOf(r, read, dir.children[x], path + [x]), after, f, g);
  }

  lemma FilesAround(r: Rules, read: Reader, dir: Node, path: seq<string>, x: string)
    returns (before: seq<FileEntry>, after: seq<FileEntry>)
    requires dir.Dir? && Reads(read, dir, path) && x in VisibleNames(r, dir)
    ensures FilesOf(r, read, dir, path) == before + FilesOf(r, read, dir.children[x], path + [x]) + after
  {
    var entries := Entries(r, read, path);
    var i :| 0 <= i < |entries| && entries[i] == x;
    var front, back := entries[..i], entries[i + 1..];
    assert entries == (front + [x]) + back;
    FilesUnderAppend(r, read, dir, path, front + [x], back);
    FilesUnderAppend(r, read, dir, path, front, [x]);
    FilesUnderOne(r, read, dir, path, x);
    before, after := FilesUnder(r, read, dir, path, front), FilesUnder(r, read, dir, path, back);
  }

  lemma {:induction false} UnderIsDistinct(r: Rules, read: Reader, dir: Node, path: seq<string>, names: seq<string>)
    requires dir.Dir? && Reads(read, dir, path) && (forall x :: x in names ==> x in dir.children) && NoDuplicates(names)
    requires forall x :: x in names ==> NoDuplicates(FilesOf(r, read, dir.children[x], path + [x]))
    ensures NoDuplicates(FilesUnder(r, read, dir, path, names))
  {
    if names != [] {
      var init, last := names[..|names| - 1], names[|names| - 1];
      UnderIsDistinct(r, read, dir, path, init);
      forall f | f in FilesUnder(r, read, dir, path, init)
        ensures f !in FilesOf(r, read, dir.children[last], path + [last])
      {
        FilesUnderMember(r, read, dir, path, init, f);
        var x :| x in init && f in FilesOf(r, read, dir.children[x], path + [x]);
        OtherEntryOtherFiles(r, read, dir, path, x, last, f);
      }
      DistinctConcat(FilesUnder(r, read, dir, path, init), FilesOf(r, read, dir.children[last], path + [last]));
    }
  }

  lemma OtherEntryOtherFiles(r: Rules, read: Reader, dir: Node, path: seq<string>, x: string, y: string, f: FileEntry)
    requires dir.Dir? && Reads(read, dir, path) && x in dir.children && y in dir.children && x != y
    requires f in FilesOf(r, read, dir.children[x], path + [x])
    ensures f !in FilesOf(r, read, dir.children[y], path + [y])
  {
    FilesBelowPath(r, read, dir.children[x], path + [x], f);
    NextName(path, x, f.path);
    NextName(path, y, f.path);
    if f in FilesOf(r, read, dir.children[y], path + [y]) {
      FilesBelowPath(r, read, dir.children[y], path + [y], f);
    }
  }

  /** No file is listed twice. */
  lemma {:induction false} FilesAreDistinct(r: Rules, read: Reader, node: Node, path: seq<string>)
    requires Reads(read, node, path)
    ensures NoDuplicates(FilesOf(r, read, node, path))
    decreases node
  {
    if node.Dir? {
      var entries := Entries(r, read, path);
      forall x | x in entries ensures NoDuplicates(FilesOf(r, read, node.children[x], path + [x])) {
        FilesAreDistinct(r, read, node.children[x], path + [x]);
      }
      FilterKeepsDistinct(Visible(r), read(path));
      SortKeepsDistinct(r.le, Filter(Visible(r), read(path)));
      UnderIsDistinct(r, read, node, path, entries);
    }
  }

  // ----- ties show -----

  /** Two readings of one tree that list two files in opposite orders. */
  ghost predicate Opposed(r: Rules, node: Node, path: seq<string>, s: Reader, t: Reader, f: FileEntry, g: FileEntry) {
    && Reads(s, node, path) && Reads(t, node, path)
    && Before(FilesOf(r, s, node, path), f, g) && Before(FilesOf(r, t, node, path), g, f)
  }

  lemma SomeFile(r: Rules, read: Reader, node: Node, path: seq<string>) returns (f: FileEntry)
    requires Reads(read, node, path) && HasFile(r, node)
    ensures forall other | Reads(other, node, path) :: f in FilesOf(r, other, node, path)
  {
    var p :| VisibleFile(r, node, p).Some?;
    f := FileEntry(path + p, VisibleFile(r, node, p).value);
    forall other | Reads(other, node, path) ensures f in FilesOf(r, other, node, path) {
      FilesIff(r, other, node, path, p, f.content);
    }
  }

  lemma TieHere(r: Rules, dir: Node, path: seq<string>, a: string, b: string)
    returns (s: Reader, t: Reader, f: FileEntry, g: FileEntry)
    requires dir.Dir? && a in NamesWithFiles(r, dir) && b in NamesWithFiles(r, dir) && a != b && Tie(r.le, a, b)
    ensures Opposed(r, dir, path, s, t, f, g)
  {
    var base := ReaderOf(dir, path);
    ReaderReads(dir, path);
    var names, names' := EnumerateFrom(dir.children.Keys, a, b);
    s, t := ReadAs(base, path, names), ReadAs(base, path, names');
    ReadAsReads(base, dir, path, names);
    ReadAsReads(base, dir, path, names');
    TiedEntries(r, names, names', a, b);
    f := SomeFile(r, s, dir.children[a], path + [a]);
    g := SomeFile(r, s, dir.children[b], path + [b]);
    EntriesOrderFiles(r, s, dir, path, a, b, f, g);
    EntriesOrderFiles(r, t, dir, path, b, a, g, f);
  }

  lemma TieBelow(r: Rules, dir: Node, path: seq<string>, x: string, s: Reader, t: Reader, f: FileEntry, g: FileEntry)
    returns (s': Reader, t': Reader)
    requires dir.Dir? && x in VisibleNames(r, dir) && Opposed(r, dir.children[x], path + [x], s, t, f, g)
    ensures Opposed(r, dir, path, s', t', f, g)
  {
    var base := ReaderOf(dir, path);
    ReaderReads(dir, path);
    s', t' := ReadBelow(base, path + [x], s), ReadBelow(base, path + [x], t);
    ReadBelowReads(base, dir, path, x, s);
    ReadBelowReads(base, dir, path, x, t);
    assert AgreeBelow(s, s', path + [x]) && AgreeBelow(t, t', path + [x]);
    AgreeingReaders(r, s, s', dir.children[x], path + [x]);
    AgreeingReaders(r, t, t', dir.children[x], path + [x]);
    OrderLifts(r, s', dir, path, x, f, g);
    OrderLifts(r, t', dir, path, x, g, f);
  }

  lemma {:induction false} TiesShow(r: Rules, node: Node, path: seq<string>)
    returns (s: Reader, t: Reader, f: FileEntry, g: FileEntry)
    requires !UntiedFiles(r, node)
    ensures Opposed(r, node, path, s, t, f, g)
    decreases node
  {
    var names := NamesWithFiles(r, node);
    if !Untied(r.le, names) {
      var a, b :| a in names && b in names && a != b && Tie(r.le, a, b);
      s, t, f, g := TieHere(r, node, path, a, b);
    } else {
      var x :| x in names && !UntiedFiles(r, node.children[x]);
      s, t, f, g := TiesShow(r, node.children[x], path + [x]);
      s, t := TieBelow(r, node, path, x, s, t, f, g);
    }
  }

  /** The fingerprint stream of a tree does not depend on the order in which its
      directories are read, exactly when no two siblings with files tie. */
  lemma StreamIgnoresOrderIff(r: Rules, tree: Node)
    requires TotalPreorder(r.le) && tree.Dir? && Named(tree)
    ensures (forall s, t | Reads(s, tree, []) && Reads(t, tree, []) ::
               Stream(FilesOf(r, s, tree, [])) == Stream(FilesOf(r, t, tree, []))) <==> UntiedFiles(r, tree)
  {
    if UntiedFiles(r, tree) {
      forall s, t | Reads(s, tree, []) && Reads(t, tree, [])
        ensures Stream(FilesOf(r, s, tree, [])) == Stream(FilesOf(r, t, tree, []))
      {
        SameFilesSameListing(r, s, tree, t, tree, []);
      }
    } else {
      var s, t, f, g := TiesShow(r, tree, []);
      OpposedStreamsDiffer(r, tree, s, t, f, g);
    }
  }

  lemma OpposedStreamsDiffer(r: Rules, tree: Node, s: Reader, t: Reader, f: FileEntry, g: FileEntry)
    requires tree.Dir? && Named(tree) && Opposed(r, tree, [], s, t, f, g)
    ensures Stream(FilesOf(r, s, tree, [])) != Stream(FilesOf(r, t, tree, []))
  {
    FilesAreDistinct(r, s, tree, []);
    BeforeIsOneWay(FilesOf(r, s, tree, []), f, g);
    if Stream(FilesOf(r, s, tree, [])) == Stream(FilesOf(r, t, tree, [])) {
      SameStreamSameListing(r, s, tree, t, tree);
    }
  }

  // ----- two spellings of one name -----

  const Composed: string := "\U{E9}"

  const Decomposed: string := "e\U{301}"

  /** A directory with a file under each spelling. */
  const Spellings: Node := Dir(map[Composed := File("1"), Decomposed := File("2")])

  lemma SpellingsAreNames(r: Rules)
    requires !r.ignored(Composed) && !r.ignored(Decomposed)
    ensures Composed != Decomposed && Named(Spellings)
    ensures Composed in NamesWithFiles(r, Spellings) && Decomposed in NamesWithFiles(r, Spellings)
  {
    assert |Composed| != |Decomposed|;
    assert VisibleFile(r, Spellings.children[Composed], []) == Some("1");
    assert VisibleFile(r, Spellings.children[Decomposed], []) == Some("2");
  }

  /** Canonically equivalent names, which compare as equal, give two streams for
      one directory. */
  lemma SpellingsShow(r: Rules) returns (s: Reader, t: Reader)
    requires Tie(r.le, Composed, Decomposed) && !r.ignored(Composed) && !r.ignored(Decomposed)
    ensures Reads(s, Spellings, []) && Reads(t, Spellings, [])
    ensures Stream(FilesOf(r, s, Spellings, [])) != Stream(FilesOf(r, t, Spellings, []))
  {
    SpellingsAreNames(r);
    var f, g;
    s, t, f, g := TieHere(r, Spellings, [], Composed, Decomposed);
    OpposedStreamsDiffer(r, Spellings, s, t, f, g);
  }
}
