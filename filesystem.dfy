/**
 * The host filesystem the organiser works on, as a value: a tree of
 * directories and sized files, plus the set of paths on which the host
 * refuses every operation (permissions, I/O errors). The `std::fs` calls the
 * engine makes (`exists`, `is_dir`, `metadata`, `read_dir`, `rename`,
 * `remove_file`, `remove_dir`, `create_dir_all`) and the `walkdir` traversal
 * are functions on this value; each mutating call returns an `Outcome`.
 */
module FileSystem {
  import opened Wrappers
  import opened Text

  /** A path is the sequence of its components below the filesystem root. */
  type Path = seq<string>

  /** A regular file of `size` bytes, or a directory with its entries in enumeration order. */
  datatype Node = File(size: nat) | Dir(entries: seq<Entry>)
  datatype Entry = Entry(name: string, node: Node)

  /** The tree, and the paths on which every operation fails. */
  datatype Fs = Fs(root: Node, denied: set<Path>)

  /** What a mutating call leaves behind and whether it reported success. */
  datatype Outcome = Outcome(fs: Fs, ok: bool)

  predicate IsDirNode(o: Option<Node>) {
    o.Some? && o.value.Dir?
  }

  /** Neither path lies inside the other. */
  predicate Incomparable(p: Path, q: Path) {
    !(p <= q) && !(q <= p)
  }

  function Parent(p: Path): Path
    requires p != []
  {
    p[..|p| - 1]
  }

  function Last(p: Path): string
    requires p != []
  {
    p[|p| - 1]
  }

  // ---------------------------------------------------------------------
  // Entries of one directory

  /** The node of the first entry called `name`. */
  function Find(es: seq<Entry>, name: string): Option<Node> {
    if es == [] then None
    else if es[0].name == name then Some(es[0].node)
    else Find(es[1..], name)
  }

  /** Replaces the first entry called `name`, or appends one when there is none. */
  function SetEntry(es: seq<Entry>, name: string, v: Node): seq<Entry> {
    if es == [] then [Entry(name, v)]
    else if es[0].name == name then [Entry(name, v)] + es[1..]
    else [es[0]] + SetEntry(es[1..], name, v)
  }

  /** Drops every entry called `name`. */
  function RemoveEntry(es: seq<Entry>, name: string): seq<Entry> {
    if es == [] then []
    else if es[0].name == name then RemoveEntry(es[1..], name)
    else [es[0]] + RemoveEntry(es[1..], name)
  }

  lemma {:induction false} FindCons(e: Entry, es: seq<Entry>, m: string)
    ensures Find([e] + es, m) == if e.name == m then Some(e.node) else Find(es, m)
  {
    assert ([e] + es)[1..] == es;
  }

  /** After `SetEntry`, `name` finds the new node and every other name what it found before. */
  lemma {:induction false} FindSet(es: seq<Entry>, name: string, v: Node, m: string)
    ensures Find(SetEntry(es, name, v), m) == if m == name then Some(v) else Find(es, m)
  {
    if es == [] {
      FindCons(Entry(name, v), [], m);
    } else if es[0].name == name {
      FindCons(Entry(name, v), es[1..], m);
    } else {
      FindSet(es[1..], name, v, m);
      FindCons(es[0], SetEntry(es[1..], name, v), m);
    }
  }

  /** After `RemoveEntry`, `name` finds nothing and every other name what it found before. */
  lemma {:induction false} FindRemove(es: seq<Entry>, name: string, m: string)
    ensures Find(RemoveEntry(es, name), m) == if m == name then None else Find(es, m)
  {
    if es != [] {
      FindRemove(es[1..], name, m);
      if es[0].name != name {
        FindCons(es[0], RemoveEntry(es[1..], name), m);
      }
    }
  }

  // ---------------------------------------------------------------------
  // Paths in a tree

  /** The node at path `p` below `n`, following the first entry of each name. */
  function LookupNode(n: Node, p: Path): Option<Node>
    decreases |p|
  {
    if p == [] then Some(n)
    else match n
      case File(_) => None
      case Dir(es) =>
        match Find(es, p[0])
        case None => None
        case Some(c) => LookupNode(c, p[1..])
  }

  /** Places `v` at `p`; a tree without a directory at the parent of `p` is left as it was. */
  function PutNode(n: Node, p: Path, v: Node): Node
    decreases |p|
  {
    if p == [] then v
    else match n
      case File(_) => n
      case Dir(es) =>
        if |p| == 1 then Dir(SetEntry(es, p[0], v))
        else match Find(es, p[0])
          case None => n
          case Some(c) => Dir(SetEntry(es, p[0], PutNode(c, p[1..], v)))
  }

  /** Removes whatever is at `p` (which is not the root). */
  function DeleteNode(n: Node, p: Path): Node
    decreases |p|
  {
    if p == [] then n
    else match n
      case File(_) => n
      case Dir(es) =>
        if |p| == 1 then Dir(RemoveEntry(es, p[0]))
        else match Find(es, p[0])
          case None => n
          case Some(c) => Dir(SetEntry(es, p[0], DeleteNode(c, p[1..])))
  }

  /** A lookup of `p + r` is a lookup of `r` in what `p` finds. */
  lemma {:induction false} LookupAppend(n: Node, p: Path, r: Path)
    ensures LookupNode(n, p + r) ==
      match LookupNode(n, p)
      case None => None
      case Some(m) => LookupNode(m, r)
    decreases |p|
  {
    if p == [] {
      assert p + r == r;
    } else {
      assert (p + r)[0] == p[0];
      assert (p + r)[1..] == p[1..] + r;
      match n
      case File(_) =>
      case Dir(es) =>
        match Find(es, p[0])
        case None =>
        case Some(c) => LookupAppend(c, p[1..], r);
    }
  }

  /** Every proper prefix of a path that exists is a directory. */
  lemma AncestorIsDir(n: Node, q: Path, r: Path)
    requires r != [] && LookupNode(n, q + r).Some?
    ensures IsDirNode(LookupNode(n, q))
  {
    LookupAppend(n, q, r);
  }

  lemma {:induction false} PutBelow(n: Node, p: Path, v: Node, r: Path)
    requires p == [] || IsDirNode(LookupNode(n, Parent(p)))
    ensures LookupNode(PutNode(n, p, v), p + r) == LookupNode(v, r)
    decreases |p|
  {
    if p == [] {
      assert p + r == r;
    } else {
      assert (p + r)[0] == p[0];
      assert (p + r)[1..] == p[1..] + r;
      match n
      case File(_) =>
      case Dir(es) =>
        FindSet(es, p[0], v, p[0]);
        if |p| == 1 {
          assert p[1..] + r == r;
        } else {
          assert Parent(p)[0] == p[0] && Parent(p)[1..] == Parent(p[1..]);
          match Find(es, p[0])
          case Some(c) =>
            FindSet(es, p[0], PutNode(c, p[1..], v), p[0]);
            PutBelow(c, p[1..], v, r);
        }
    }
  }

  lemma {:induction false} PutOther(n: Node, p: Path, v: Node, q: Path)
    requires Incomparable(p, q)
    ensures LookupNode(PutNode(n, p, v), q) == LookupNode(n, q)
    decreases |p|
  {
    match n
    case File(_) =>
    case Dir(es) =>
      if |p| == 1 {
        assert q[0] != p[0];
        FindSet(es, p[0], v, q[0]);
      } else {
        match Find(es, p[0])
        case None =>
        case Some(c) =>
          var c' := PutNode(c, p[1..], v);
          FindSet(es, p[0], c', q[0]);
          if q[0] == p[0] {
            assert |q| > 1;
            assert Incomparable(p[1..], q[1..]);
            PutOther(c, p[1..], v, q[1..]);
          }
      }
  }

  lemma {:induction false} PutAbove(n: Node, p: Path, v: Node, q: Path)
    requires q < p && IsDirNode(LookupNode(n, q))
    ensures IsDirNode(LookupNode(PutNode(n, p, v), q))
    decreases |p|
  {
    match n
    case Dir(es) =>
      if q != [] {
        assert q[0] == p[0];
        match Find(es, p[0])
        case Some(c) =>
          FindSet(es, p[0], PutNode(c, p[1..], v), p[0]);
          assert q[1..] < p[1..];
          PutAbove(c, p[1..], v, q[1..]);
      }
  }

  lemma {:induction false} DeleteBelow(n: Node, p: Path, r: Path)
    requires p != []
    ensures LookupNode(DeleteNode(n, p), p + r) == None
    decreases |p|
  {
    assert (p + r)[0] == p[0];
    assert (p + r)[1..] == p[1..] + r;
    match n
    case File(_) =>
    case Dir(es) =>
      if |p| == 1 {
        FindRemove(es, p[0], p[0]);
      } else {
        match Find(es, p[0])
        case None =>
        case Some(c) =>
          FindSet(es, p[0], DeleteNode(c, p[1..]), p[0]);
          DeleteBelow(c, p[1..], r);
      }
  }

  lemma {:induction false} DeleteOther(n: Node, p: Path, q: Path)
    requires Incomparable(p, q)
    ensures LookupNode(DeleteNode(n, p), q) == LookupNode(n, q)
    decreases |p|
  {
    match n
    case File(_) =>
    case Dir(es) =>
      if |p| == 1 {
        assert q[0] != p[0];
        FindRemove(es, p[0], q[0]);
      } else {
        match Find(es, p[0])
        case None =>
        case Some(c) =>
          var c' := DeleteNode(c, p[1..]);
          FindSet(es, p[0], c', q[0]);
          if q[0] == p[0] {
            assert |q| > 1;
            assert Incomparable(p[1..], q[1..]);
            DeleteOther(c, p[1..], q[1..]);
          }
      }
  }

  lemma {:induction false} DeleteAbove(n: Node, p: Path, q: Path)
    requires q < p && IsDirNode(LookupNode(n, q))
    ensures IsDirNode(LookupNode(DeleteNode(n, p), q))
    decreases |p|
  {
    match n
    case Dir(es) =>
      if q != [] {
        assert q[0] == p[0];
        match Find(es, p[0])
        case Some(c) =>
          FindSet(es, p[0], DeleteNode(c, p[1..]), p[0]);
          assert q[1..] < p[1..];
          DeleteAbove(c, p[1..], q[1..]);
      }
  }

  // ---------------------------------------------------------------------
  // Well-formed trees: names within a directory are non-empty and distinct

  predicate WellFormedNode(n: Node) {
    match n
    case File(_) => true
    case Dir(es) => WellFormedEntries(es)
  }

  predicate WellFormedEntries(es: seq<Entry>) {
    es == [] ||
    (es[0].name != "" && Find(es[1..], es[0].name).None? &&
     WellFormedNode(es[0].node) && WellFormedEntries(es[1..]))
  }

  lemma {:induction false} FindWellFormed(es: seq<Entry>, m: string)
    requires WellFormedEntries(es) && Find(es, m).Some?
    ensures WellFormedNode(Find(es, m).value)
  {
    if es[0].name != m {
      FindWellFormed(es[1..], m);
    }
  }

  lemma {:induction false} FoundNameNonEmpty(es: seq<Entry>, m: string)
    requires WellFormedEntries(es) && Find(es, m).Some?
    ensures m != ""
  {
    if es[0].name != m {
      FoundNameNonEmpty(es[1..], m);
    }
  }

  /** A name that finds a node names one of the entries. */
  lemma {:induction false} FindIndex(es: seq<Entry>, m: string) returns (k: int)
    requires Find(es, m).Some?
    ensures 0 <= k < |es| && es[k].name == m && es[k].node == Find(es, m).value
  {
    if es[0].name == m {
      k := 0;
    } else {
      var j := FindIndex(es[1..], m);
      k := j + 1;
    }
  }

  /** In a well-formed listing every entry has a non-empty name and is the one its name finds. */
  lemma {:induction false} EntryFound(es: seq<Entry>, k: int)
    requires WellFormedEntries(es) && 0 <= k < |es|
    ensures es[k].name != "" && Find(es, es[k].name) == Some(es[k].node)
  {
    if k > 0 {
      EntryFound(es[1..], k - 1);
      assert es[1..][k - 1] == es[k];
      assert es[0].name != es[k].name;
    }
  }

  lemma {:induction false} LookupWellFormed(n: Node, p: Path)
    requires WellFormedNode(n) && LookupNode(n, p).Some?
    ensures WellFormedNode(LookupNode(n, p).value)
    decreases |p|
  {
    if p != [] {
      var c := Find(n.entries, p[0]).value;
      FindWellFormed(n.entries, p[0]);
      LookupWellFormed(c, p[1..]);
    }
  }

  lemma {:induction false} SetEntryWellFormed(es: seq<Entry>, name: string, v: Node)
    requires WellFormedEntries(es) && WellFormedNode(v) && name != ""
    ensures WellFormedEntries(SetEntry(es, name, v))
  {
    if es == [] {
    } else if es[0].name == name {
      assert ([Entry(name, v)] + es[1..])[1..] == es[1..];
    } else {
      var t := SetEntry(es[1..], name, v);
      SetEntryWellFormed(es[1..], name, v);
      FindSet(es[1..], name, v, es[0].name);
      assert ([es[0]] + t)[1..] == t;
    }
  }

  lemma {:induction false} RemoveEntryWellFormed(es: seq<Entry>, name: string)
    requires WellFormedEntries(es)
    ensures WellFormedEntries(RemoveEntry(es, name))
  {
    if es != [] {
      var t := RemoveEntry(es[1..], name);
      RemoveEntryWellFormed(es[1..], name);
      if es[0].name != name {
        FindRemove(es[1..], name, es[0].name);
        assert ([es[0]] + t)[1..] == t;
      }
    }
  }

  lemma {:induction false} PutWellFormed(n: Node, p: Path, v: Node)
    requires WellFormedNode(n) && WellFormedNode(v) && forall i :: 0 <= i < |p| ==> p[i] != ""
    ensures WellFormedNode(PutNode(n, p, v))
    decreases |p|
  {
    if p != [] {
      match n
      case File(_) =>
      case Dir(es) =>
        if |p| == 1 {
          SetEntryWellFormed(es, p[0], v);
        } else {
          match Find(es, p[0])
          case None =>
          case Some(c) =>
            FindWellFormed(es, p[0]);
            PutWellFormed(c, p[1..], v);
            SetEntryWellFormed(es, p[0], PutNode(c, p[1..], v));
      }
    }
  }

  lemma {:induction false} DeleteWellFormed(n: Node, p: Path)
    requires WellFormedNode(n)
    ensures WellFormedNode(DeleteNode(n, p))
    decreases |p|
  {
    if p != [] {
      match n
      case File(_) =>
      case Dir(es) =>
        if |p| == 1 {
          RemoveEntryWellFormed(es, p[0]);
        } else {
          match Find(es, p[0])
          case None =>
          case Some(c) =>
            FindWellFormed(es, p[0]);
            FoundNameNonEmpty(es, p[0]);
            DeleteWellFormed(c, p[1..]);
            SetEntryWellFormed(es, p[0], DeleteNode(c, p[1..]));
      }
    }
  }

  // ---------------------------------------------------------------------
  // The filesystem and the calls the engine makes on it

  predicate WellFormed(fs: Fs) {
    fs.root.Dir? && WellFormedNode(fs.root)
  }

  /** Every component is a non-empty name. */
  predicate ValidPath(p: Path) {
    forall i :: 0 <= i < |p| ==> p[i] != ""
  }

  function Lookup(fs: Fs, p: Path): Option<Node> {
    LookupNode(fs.root, p)
  }

  /** What `metadata`, `exists`, `is_dir` and `is_file` see: nothing on a refused path. */
  function Stat(fs: Fs, p: Path): Option<Node> {
    if p in fs.denied then None else Lookup(fs, p)
  }

  /** `Path::exists`. */
  predicate Exists(fs: Fs, p: Path) {
    Stat(fs, p).Some?
  }

  /** `Path::is_dir`. */
  predicate IsDir(fs: Fs, p: Path) {
    IsDirNode(Stat(fs, p))
  }

  /** `Path::is_file`. */
  predicate IsFile(fs: Fs, p: Path) {
    Stat(fs, p).Some? && Stat(fs, p).value.File?
  }

  /** The size of the file at `p`, if a file is there. */
  function FileAt(fs: Fs, p: Path): Option<nat> {
    match Lookup(fs, p)
    case Some(File(size)) => Some(size)
    case _ => None
  }

  function Put(fs: Fs, p: Path, v: Node): Fs {
    fs.(root := PutNode(fs.root, p, v))
  }

  function Delete(fs: Fs, p: Path): Fs {
    fs.(root := DeleteNode(fs.root, p))
  }

  /** `fs::read_dir`: the entries of a directory that is not refused. */
  function ReadDir(fs: Fs, p: Path): (r: Option<seq<Entry>>)
    ensures r.Some? <==> IsDir(fs, p)
    ensures r.Some? ==> Lookup(fs, p) == Some(Dir(r.value))
  {
    if p in fs.denied then None
    else match Lookup(fs, p)
      case Some(Dir(es)) => Some(es)
      case _ => None
  }

  /**
   * When `fs::rename` succeeds: neither path is refused or the root, the
   * source exists, the destination's parent is a directory, the destination
   * is not inside the source, and the destination is absent or, for a file,
   * another file (which is replaced). A directory never replaces an existing
   * path.
   */
  predicate CanRename(fs: Fs, src: Path, dst: Path) {
    && src != [] && dst != []
    && src !in fs.denied && dst !in fs.denied
    && Lookup(fs, src).Some?
    && IsDirNode(Lookup(fs, Parent(dst)))
    && !(src < dst)
    && match Lookup(fs, src).value
       case File(_) => Lookup(fs, dst).None? || Lookup(fs, dst).value.File?
       case Dir(_) => Lookup(fs, dst).None?
  }

  /** `fs::rename`: the node at `src` now sits at `dst`. */
  function Rename(fs: Fs, src: Path, dst: Path): (o: Outcome)
    ensures o.ok == CanRename(fs, src, dst)
    ensures !o.ok ==> o.fs == fs
    ensures o.fs.denied == fs.denied
  {
    if CanRename(fs, src, dst) then
      Outcome(Put(Delete(fs, src), dst, Lookup(fs, src).value), true)
    else
      Outcome(fs, false)
  }

  /** A successful rename never has one path inside the other, unless both are the same file. */
  lemma RenameSeparates(fs: Fs, src: Path, dst: Path)
    requires Rename(fs, src, dst).ok
    ensures src == dst || Incomparable(src, dst)
  {
    if dst < src {
      assert dst + src[|dst|..] == src;
      AncestorIsDir(fs.root, dst, src[|dst|..]);
    }
  }

  /** After a successful rename, what was at `src + r` is at `dst + r`. */
  lemma RenameMoves(fs: Fs, src: Path, dst: Path, r: Path)
    requires Rename(fs, src, dst).ok
    ensures Lookup(Rename(fs, src, dst).fs, dst + r) == LookupNode(Lookup(fs, src).value, r)
  {
    var mid := Delete(fs, src);
    var pd := Parent(dst);
    assert IsDirNode(Lookup(mid, pd)) by {
      if pd < src {
        DeleteAbove(fs.root, src, pd);
      } else {
        assert src <= pd ==> src < dst;
        DeleteOther(fs.root, src, pd);
      }
    }
    PutBelow(mid.root, dst, Lookup(fs, src).value, r);
  }

  /** After a successful rename between distinct paths nothing is left at or below `src`. */
  lemma RenameRemovesSource(fs: Fs, src: Path, dst: Path, r: Path)
    requires Rename(fs, src, dst).ok && src != dst
    ensures Lookup(Rename(fs, src, dst).fs, src + r) == None
  {
    RenameSeparates(fs, src, dst);
    var mid := Delete(fs, src);
    DeleteBelow(fs.root, src, r);
    assert dst <= src + r ==> dst <= src || src <= dst;
    assert Incomparable(dst, src + r);
    PutOther(mid.root, dst, Lookup(fs, src).value, src + r);
  }

  /** A successful rename changes nothing at paths apart from both of its own. */
  lemma RenameFrame(fs: Fs, src: Path, dst: Path, q: Path)
    requires Rename(fs, src, dst).ok && Incomparable(q, src) && Incomparable(q, dst)
    ensures Lookup(Rename(fs, src, dst).fs, q) == Lookup(fs, q)
  {
    DeleteOther(fs.root, src, q);
    PutOther(Delete(fs, src).root, dst, Lookup(fs, src).value, q);
  }

  /** A directory strictly above or apart from both paths of a successful rename stays a directory. */
  lemma RenameKeepsDir(fs: Fs, src: Path, dst: Path, q: Path)
    requires Rename(fs, src, dst).ok && IsDirNode(Lookup(fs, q))
    requires q < src || Incomparable(q, src)
    requires q < dst || Incomparable(q, dst)
    ensures IsDirNode(Lookup(Rename(fs, src, dst).fs, q))
  {
    var mid := Delete(fs, src);
    if q < src {
      DeleteAbove(fs.root, src, q);
    } else {
      DeleteOther(fs.root, src, q);
    }
    if q < dst {
      PutAbove(mid.root, dst, Lookup(fs, src).value, q);
    } else {
      PutOther(mid.root, dst, Lookup(fs, src).value, q);
    }
  }

  lemma RenameWellFormed(fs: Fs, src: Path, dst: Path)
    requires WellFormed(fs) && Rename(fs, src, dst).ok && ValidPath(dst)
    ensures WellFormed(Rename(fs, src, dst).fs)
  {
    LookupWellFormed(fs.root, src);
    DeleteWellFormed(fs.root, src);
    PutWellFormed(Delete(fs, src).root, dst, Lookup(fs, src).value);
  }

  /** `fs::remove_file`: succeeds on a file that is not refused. */
  function RemoveFile(fs: Fs, p: Path): (o: Outcome)
    ensures o.ok <==> p != [] && p !in fs.denied && Lookup(fs, p).Some? && Lookup(fs, p).value.File?
    ensures !o.ok ==> o.fs == fs
    ensures o.fs.denied == fs.denied
  {
    if p != [] && p !in fs.denied && Lookup(fs, p).Some? && Lookup(fs, p).value.File? then
      Outcome(Delete(fs, p), true)
    else
      Outcome(fs, false)
  }

  /** `fs::remove_dir`: succeeds on an empty directory that is not refused. */
  function RemoveDir(fs: Fs, p: Path): (o: Outcome)
    ensures o.ok <==> p != [] && p !in fs.denied && Lookup(fs, p) == Some(Dir([]))
    ensures !o.ok ==> o.fs == fs
    ensures o.fs.denied == fs.denied
  {
    if p != [] && p !in fs.denied && Lookup(fs, p) == Some(Dir([])) then
      Outcome(Delete(fs, p), true)
    else
      Outcome(fs, false)
  }

  /** A successful `remove_dir` or `remove_file` leaves nothing at or below the path and changes nothing apart from it. */
  lemma RemoveEffect(fs: Fs, p: Path, q: Path)
    requires RemoveDir(fs, p).ok || RemoveFile(fs, p).ok
    ensures p <= q ==> Lookup(Delete(fs, p), q) == None
    ensures Incomparable(p, q) ==> Lookup(Delete(fs, p), q) == Lookup(fs, q)
    ensures q < p && IsDirNode(Lookup(fs, q)) ==> IsDirNode(Lookup(Delete(fs, p), q))
  {
    if p <= q {
      DeleteBelow(fs.root, p, q[|p|..]);
      assert p + q[|p|..] == q;
    }
    if Incomparable(p, q) {
      DeleteOther(fs.root, p, q);
    }
    if q < p && IsDirNode(Lookup(fs, q)) {
      DeleteAbove(fs.root, p, q);
    }
  }

  /** Nothing exists below a file. */
  lemma BelowFile(n: Node, q: Path, r: Path)
    ensures r != [] && LookupNode(n, q).Some? && LookupNode(n, q).value.File? ==> LookupNode(n, q + r) == None
  {
    LookupAppend(n, q, r);
  }

  /** Whatever exists below `q` makes `q` a directory. */
  lemma BelowExisting(n: Node, q: Path, r: Path)
    ensures r != [] && LookupNode(n, q + r).Some? ==> IsDirNode(LookupNode(n, q))
  {
    LookupAppend(n, q, r);
  }

  /** Removing a file creates nothing. */
  lemma RemoveKeepsAbsent(fs: Fs, p: Path, q: Path)
    requires RemoveFile(fs, p).ok && Lookup(fs, q) == None
    ensures Lookup(Delete(fs, p), q) == None
  {
    RemoveEffect(fs, p, q);
    if |q| <= |p| {
      var r := p[|q|..];
      BelowExisting(fs.root, q, r);
      assert q <= p ==> q + r == p;
    }
  }

  /** Removing a file leaves every other file where it was. */
  lemma RemoveKeepsOtherFile(fs: Fs, p: Path, q: Path)
    requires RemoveFile(fs, p).ok && FileAt(fs, q).Some? && p != q
    ensures Lookup(Delete(fs, p), q) == Lookup(fs, q)
  {
    RemoveEffect(fs, p, q);
    if |p| <= |q| {
      var r := q[|p|..];
      BelowFile(fs.root, p, r);
      assert p <= q ==> p + r == q;
    } else {
      var r := p[|q|..];
      BelowFile(fs.root, q, r);
      assert q <= p ==> q + r == p;
    }
  }

  /** After a file is removed, any file still found is the one that was there before. */
  lemma RemoveKeepsFiles(fs: Fs, p: Path, q: Path)
    requires RemoveFile(fs, p).ok
    ensures FileAt(Delete(fs, p), q).Some? ==> FileAt(Delete(fs, p), q) == FileAt(fs, q)
  {
    RemoveEffect(fs, p, q);
    if |q| <= |p| {
      var r := p[|q|..];
      BelowExisting(fs.root, q, r);
      assert q <= p ==> q + r == p;
    }
  }

  /** `fs::create_dir`: a new empty directory where nothing was, under an existing directory. */
  function CreateDir(fs: Fs, p: Path): (o: Outcome)
    ensures o.ok <==> p != [] && p !in fs.denied && Lookup(fs, p).None? && IsDirNode(Lookup(fs, Parent(p)))
    ensures o.ok ==> Lookup(o.fs, p) == Some(Dir([]))
    ensures !o.ok ==> o.fs == fs
    ensures o.fs.denied == fs.denied
  {
    if p != [] && p !in fs.denied && Lookup(fs, p).None? && IsDirNode(Lookup(fs, Parent(p))) then
      var o := Outcome(Put(fs, p, Dir([])), true);
      PutBelow(fs.root, p, Dir([]), []);
      assert p + [] == p;
      o
    else
      Outcome(fs, false)
  }

  /**
   * `fs::create_dir_all`: tries `create_dir`; when the parent is missing it
   * creates the parent chain first and tries again; an existing directory
   * counts as success.
   */
  function CreateDirAll(fs: Fs, p: Path): (o: Outcome)
    ensures o.ok ==> p == [] || IsDir(o.fs, p)
    ensures o.fs.denied == fs.denied
    decreases |p|
  {
    if p == [] then Outcome(fs, true)
    else
      var first := CreateDir(fs, p);
      if first.ok then first
      else if IsDir(fs, p) then Outcome(fs, true)
      else if p !in fs.denied && Lookup(fs, Parent(p)).None? then
        var up := CreateDirAll(fs, Parent(p));
        if !up.ok then up
        else
          var again := CreateDir(up.fs, p);
          if again.ok then again
          else if IsDir(up.fs, p) then Outcome(up.fs, true)
          else again
      else Outcome(fs, false)
  }

  /** `create_dir` only adds the one directory: no file changes, nothing disappears. */
  lemma CreateDirFrame(fs: Fs, p: Path, q: Path)
    requires CreateDir(fs, p).ok
    ensures FileAt(CreateDir(fs, p).fs, q) == FileAt(fs, q)
    ensures Lookup(fs, q).Some? ==> Lookup(CreateDir(fs, p).fs, q).Some?
    ensures Lookup(CreateDir(fs, p).fs, q).Some? && Lookup(fs, q).None? ==> q == p
  {
    var n := fs.root;
    if p <= q {
      var r := q[|p|..];
      assert p + r == q;
      PutBelow(n, p, Dir([]), r);
      LookupAppend(n, p, r);
    } else if q < p {
      var pp := Parent(p);
      if q != pp {
        assert q + pp[|q|..] == pp;
        AncestorIsDir(n, q, pp[|q|..]);
      }
      PutAbove(n, p, Dir([]), q);
    } else {
      PutOther(n, p, Dir([]), q);
    }
  }

  /** `create_dir_all` only adds directories along `p`: no file changes, nothing disappears. */
  lemma {:induction false} CreateDirAllFrame(fs: Fs, p: Path, q: Path)
    ensures FileAt(CreateDirAll(fs, p).fs, q) == FileAt(fs, q)
    ensures Lookup(fs, q).Some? ==> Lookup(CreateDirAll(fs, p).fs, q).Some?
    ensures Lookup(CreateDirAll(fs, p).fs, q).Some? && Lookup(fs, q).None? ==> q <= p
    decreases |p|
  {
    if p != [] {
      var first := CreateDir(fs, p);
      if first.ok {
        CreateDirFrame(fs, p, q);
      } else if !IsDir(fs, p) && p !in fs.denied && Lookup(fs, Parent(p)).None? {
        var up := CreateDirAll(fs, Parent(p));
        CreateDirAllFrame(fs, Parent(p), q);
        if up.ok {
          var again := CreateDir(up.fs, p);
          if again.ok {
            CreateDirFrame(up.fs, p, q);
          }
        }
      }
    }
  }

  lemma {:induction false} CreateDirAllWellFormed(fs: Fs, p: Path)
    requires WellFormed(fs) && ValidPath(p)
    ensures WellFormed(CreateDirAll(fs, p).fs)
    decreases |p|
  {
    if p != [] {
      var first := CreateDir(fs, p);
      if first.ok {
        PutWellFormed(fs.root, p, Dir([]));
      } else if !IsDir(fs, p) && p !in fs.denied && Lookup(fs, Parent(p)).None? {
        var up := CreateDirAll(fs, Parent(p));
        CreateDirAllWellFormed(fs, Parent(p));
        if up.ok {
          var again := CreateDir(up.fs, p);
          if again.ok {
            PutWellFormed(up.fs.root, p, Dir([]));
          }
        }
      }
    }
  }

  // ---------------------------------------------------------------------
  // Path strings

  /** `Path::join` with one component; joining "" yields the path itself. */
  function Join(base: Path, name: string): Path {
    if name == "" then base else base + [name]
  }

  /** The path as text, each component preceded by a separator. */
  function Render(p: Path): string
    decreases |p|
  {
    if p == [] then "" else Render(Parent(p)) + "/" + Last(p)
  }

  /** The rendering of a path ends with its last component. */
  lemma RenderEndsWith(p: Path, name: string)
    ensures Render(p + [name]) == Render(p) + "/" + name
    ensures Contains(Render(p + [name]), name)
  {
    assert Parent(p + [name]) == p;
    assert Contains(name, name) by {
      assert OccursAt(name, name, 0);
      ContainsSlice(name, name, 0);
    }
    ContainsWithin(Render(p) + "/", name, "", name);
    assert Render(p) + "/" + name + "" == Render(p) + "/" + name;
  }

  /** The index of the last `c` in `s`. */
  function LastIndexOf(s: string, c: char): (r: Option<nat>)
    ensures r.Some? ==> r.value < |s| && s[r.value] == c && forall i :: r.value < i < |s| ==> s[i] != c
    ensures r.None? ==> c !in s
  {
    if s == [] then None
    else if s[|s| - 1] == c then Some(|s| - 1)
    else LastIndexOf(s[..|s| - 1], c)
  }

  /**
   * `Path::extension` of a file name: the text after the last dot, unless the
   * name has no dot, its only dot is the first character, or it is "..".
   */
  function Extension(name: string): (r: Option<string>)
    ensures r.Some? ==> '.' !in r.value
    ensures r.Some? ==> exists k :: 0 < k < |name| && name[k] == '.' && name[k + 1..] == r.value
    ensures r.None? <==> name == ".." || '.' !in name || forall k :: 0 < k < |name| ==> name[k] != '.'
  {
    if name == ".." then None
    else match LastIndexOf(name, '.')
      case None => None
      case Some(k) => if k == 0 then None else Some(name[k + 1..])
  }

  /** A stem and a dot-free extension joined by a dot give back that extension. */
  lemma ExtensionOfJoin(stem: string, e: string)
    requires stem != "" && '.' !in e && (stem != "." || e != "")
    ensures Extension(stem + "." + e) == Some(e)
  {
    var name := stem + "." + e;
    var k := |stem|;
    assert name[k] == '.';
    assert name[k + 1..] == e;
    assert forall i :: k < i < |name| ==> name[i] == e[i - k - 1];
    if |name| == 2 {
      assert |stem| == 1 && e == [];
      assert stem == [name[0]];
      assert name[0] != '.';
    }
    var r := LastIndexOf(name, '.');
    assert r.Some? && r.value == k;
  }

  // ---------------------------------------------------------------------
  // WalkDir

  /** One item `walkdir` yields: a path and what is there. */
  datatype Visit = Visit(path: Path, node: Node)

  /**
   * The pre-order walk below `p`: the node itself, then, for a directory whose
   * listing is not refused, the walks of its entries in enumeration order.
   */
  function WalkNode(denied: set<Path>, p: Path, n: Node): seq<Visit>
    decreases n
  {
    [Visit(p, n)] +
    match n
    case File(_) => []
    case Dir(es) => if p in denied then [] else WalkEntries(denied, p, es)
  }

  function WalkEntries(denied: set<Path>, p: Path, es: seq<Entry>): seq<Visit>
    decreases es
  {
    if es == [] then []
    else WalkNode(denied, p + [es[0].name], es[0].node) + WalkEntries(denied, p, es[1..])
  }

  /** `WalkDir::new(p)` with failed items dropped; nothing when `p` does not exist. */
  function Walk(fs: Fs, p: Path): seq<Visit> {
    match Lookup(fs, p)
    case None => []
    case Some(n) => WalkNode(fs.denied, p, n)
  }
}
