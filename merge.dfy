/**
 * `move_dir_recursive`, the folder move of the organiser: a plain rename
 * when the destination is absent, otherwise a merge of the source's entries
 * into the destination followed by the removal of the emptied source.
 */
module Merge {
  import opened Wrappers
  import opened FileSystem

  /**
   * `move_dir_recursive(src, dst)`, where `tree` is what the listing showed
   * at `src` when the call began. The first failing step aborts, leaving
   * what the earlier steps did.
   */
  function MoveTree(fs: Fs, src: Path, dst: Path, tree: Node): Outcome
    decreases tree
  {
    if !Exists(fs, dst) then Rename(fs, src, dst)
    else if ReadDir(fs, src).None? then Outcome(fs, false)
    else match tree
      case File(_) => RemoveDir(fs, src)
      case Dir(es) =>
        var moved := MoveEntries(fs, src, dst, es);
        if moved.ok then RemoveDir(moved.fs, src) else moved
  }

  /** The loop over the entries of `src`, in listing order. */
  function MoveEntries(fs: Fs, src: Path, dst: Path, es: seq<Entry>): Outcome
    decreases es
  {
    if es == [] then Outcome(fs, true)
    else
      var first := MoveEntry(fs, src, dst, es[0]);
      if first.ok then MoveEntries(first.fs, src, dst, es[1..]) else first
  }

  /** One entry: a directory is merged recursively, anything else renamed. */
  function MoveEntry(fs: Fs, src: Path, dst: Path, e: Entry): Outcome
    decreases e
  {
    var s := Join(src, e.name);
    var d := Join(dst, e.name);
    if IsDir(fs, s) then MoveTree(fs, s, d, e.node) else Rename(fs, s, d)
  }

  /** `move_dir_recursive`, with the loop over the entries of a destination that exists. */
  method MoveDirRecursive(fs: Fs, src: Path, dst: Path, tree: Node) returns (o: Outcome)
    ensures o == MoveTree(fs, src, dst, tree)
    decreases tree
  {
    if !Exists(fs, dst) {
      return Rename(fs, src, dst);
    }
    if ReadDir(fs, src).None? {
      return Outcome(fs, false);
    }
    var cur := fs;
    if tree.Dir? {
      var entries := tree.entries;
      var i := 0;
      while i < |entries|
        invariant 0 <= i <= |entries|
        invariant MoveEntries(cur, src, dst, entries[i..]) == MoveEntries(fs, src, dst, entries)
      {
        var entry := entries[i];
        var srcPath := Join(src, entry.name);
        var dstPath := Join(dst, entry.name);
        var step: Outcome;
        if IsDir(cur, srcPath) {
          step := MoveDirRecursive(cur, srcPath, dstPath, entry.node);
        } else {
          step := Rename(cur, srcPath, dstPath);
        }
        assert step == MoveEntry(cur, src, dst, entry);
        MoveEntriesFirst(cur, src, dst, entries[i..]);
        if !step.ok {
          return step;
        }
        assert entries[i..][1..] == entries[i + 1..];
        cur := step.fs;
        i := i + 1;
      }
      assert MoveEntries(fs, src, dst, entries) == Outcome(cur, true);
    }
    return RemoveDir(cur, src);
  }

  /** The first entry of the loop decides whether the rest is tried. */
  lemma MoveEntriesFirst(fs: Fs, src: Path, dst: Path, es: seq<Entry>)
    requires es != []
    ensures var first := MoveEntry(fs, src, dst, es[0]);
      MoveEntries(fs, src, dst, es) == if first.ok then MoveEntries(first.fs, src, dst, es[1..]) else first
  {
  }

  // ---------------------------------------------------------------------
  // What a successful move leaves behind

  /** What a move from `src` to `dst` leaves at `dst + r`: the source's file if it had one there, else the destination's. */
  function Merged(fs: Fs, src: Path, dst: Path, r: Path): Option<nat> {
    if FileAt(fs, src + r).Some? then FileAt(fs, src + r) else FileAt(fs, dst + r)
  }

  /** Nothing changed at paths apart from both `s` and `d`. */
  ghost predicate Framed(fs: Fs, o: Fs, s: Path, d: Path) {
    forall q :: Incomparable(q, s) && Incomparable(q, d) ==> Lookup(o, q) == Lookup(fs, q)
  }

  /** Nothing is left at or below `s`. */
  ghost predicate SourceGone(o: Fs, s: Path) {
    forall r :: Lookup(o, s + r) == None
  }

  /** The directories above `d` are still directories. */
  ghost predicate KeepsDirsAbove(fs: Fs, o: Fs, d: Path) {
    forall q :: q < d && IsDirNode(Lookup(fs, q)) ==> IsDirNode(Lookup(o, q))
  }

  /** Every file below `d` is the merge of the source's and the destination's. */
  ghost predicate MergedInto(fs: Fs, o: Fs, s: Path, d: Path) {
    forall r :: FileAt(o, d + r) == Merged(fs, s, d, r)
  }

  /** Two prefixes of one path are prefixes of each other. */
  lemma PrefixesComparable(p: Path, q: Path, t: Path)
    ensures p <= t && q <= t ==> p <= q || q <= p
  {
    if p <= t && q <= t {
      if |p| <= |q| {
        assert p == t[..|p|] == q[..|p|];
      } else {
        assert q == t[..|q|] == p[..|q|];
      }
    }
  }

  /** A prefix of `p + a` is comparable with `p`. */
  lemma ExtensionPrefix(p: Path, a: Path, t: Path)
    ensures p + a <= t ==> p <= t
  {
    if p + a <= t {
      assert t[..|p|] == (p + a)[..|p|] == p;
    }
  }

  /** Extending two paths apart from each other keeps them apart. */
  lemma IncomparableBelow(p: Path, q: Path, a: Path, b: Path)
    requires Incomparable(p, q)
    ensures Incomparable(p + a, q + b)
  {
    assert p <= p + a && q <= q + b;
    ExtensionPrefix(p, a, q + b);
    PrefixesComparable(p, q, q + b);
    ExtensionPrefix(q, b, p + a);
    PrefixesComparable(p, q, p + a);
  }

  /** A path apart from `s` is apart from everything below `s`. */
  lemma IncomparableExtend(q: Path, s: Path, a: Path)
    requires Incomparable(q, s)
    ensures Incomparable(q, s + a)
  {
    IncomparableBelow(q, s, [], a);
    assert q + [] == q;
  }

  /** `p + r` is the path below the child `r[0]` of `p`. */
  lemma ChildPath(p: Path, r: Path)
    requires r != []
    ensures (p + [r[0]]) + r[1..] == p + r
  {
    assert r == [r[0]] + r[1..];
  }

  /** Entries of different names lead apart. */
  lemma SiblingsApart(p: Path, r: Path, x: string)
    requires r != [] && r[0] != x
    ensures Incomparable(p + r, p + [x])
  {
    assert (p + r)[|p|] == r[0];
    assert (p + [x])[|p|] == x;
  }

  /** A strict ancestor of `d` is an ancestor of, or apart from, any `s` apart from `d`. */
  lemma AboveSplit(q: Path, s: Path, d: Path)
    requires q < d && Incomparable(s, d)
    ensures q < s || Incomparable(q, s)
  {
    if q <= s {
      assert q != s;
    }
  }

  /** A rename leaves at `dst + r` what `Merged` says. */
  lemma RenameMerged(fs: Fs, s: Path, d: Path, r: Path)
    requires Rename(fs, s, d).ok
    ensures FileAt(Rename(fs, s, d).fs, d + r) == Merged(fs, s, d, r)
  {
    RenameMoves(fs, s, d, r);
    LookupAppend(fs.root, s, r);
    if FileAt(fs, s + r).None? {
      LookupAppend(fs.root, d, r);
    }
  }

  /** What a rename between two paths apart from each other does, in the terms of a merge. */
  lemma RenameFacts(fs: Fs, s: Path, d: Path)
    requires WellFormed(fs) && ValidPath(d) && Incomparable(s, d) && Rename(fs, s, d).ok
    ensures var o := Rename(fs, s, d).fs;
      WellFormed(o) && Framed(fs, o, s, d) && SourceGone(o, s) &&
      KeepsDirsAbove(fs, o, d) && MergedInto(fs, o, s, d)
    ensures IsDirNode(Lookup(fs, Parent(d)))
  {
    var o := Rename(fs, s, d).fs;
    RenameWellFormed(fs, s, d);
    forall q | Incomparable(q, s) && Incomparable(q, d)
      ensures Lookup(o, q) == Lookup(fs, q)
    {
      RenameFrame(fs, s, d, q);
    }
    forall r
      ensures Lookup(o, s + r) == None
    {
      RenameRemovesSource(fs, s, d, r);
    }
    forall q | q < d && IsDirNode(Lookup(fs, q))
      ensures IsDirNode(Lookup(o, q))
    {
      AboveSplit(q, s, d);
      RenameKeepsDir(fs, s, d, q);
    }
    forall r
      ensures FileAt(o, d + r) == Merged(fs, s, d, r)
    {
      RenameMerged(fs, s, d, r);
    }
  }

  /**
   * A successful `move_dir_recursive(src, dst)` between two paths apart from
   * each other: nothing is left at `src`, every file below `dst` is the
   * source's where the source had one and the destination's otherwise,
   * directories above `dst` stay directories and nothing else changes.
   */
  lemma {:induction false} MoveTreeFacts(fs: Fs, s: Path, d: Path, tree: Node)
    requires WellFormed(fs) && ValidPath(d) && Incomparable(s, d)
    requires Lookup(fs, s) == Some(tree)
    requires MoveTree(fs, s, d, tree).ok
    ensures var o := MoveTree(fs, s, d, tree).fs;
      WellFormed(o) && Framed(fs, o, s, d) && SourceGone(o, s) &&
      KeepsDirsAbove(fs, o, d) && MergedInto(fs, o, s, d)
    ensures d != [] && IsDirNode(Lookup(fs, Parent(d)))
    decreases tree, 1
  {
    if !Exists(fs, d) {
      RenameFacts(fs, s, d);
    } else {
      var es := ReadDir(fs, s).value;
      assert tree == Dir(es);
      LookupWellFormed(fs.root, s);
      forall k | 0 <= k < |es|
        ensures Lookup(fs, s + [es[k].name]) == Some(es[k].node)
      {
        EntryFound(es, k);
        LookupAppend(fs.root, s, [es[k].name]);
      }
      MoveEntriesFacts(fs, s, d, es);
      RemoveAfterMerge(fs, MoveEntries(fs, s, d, es).fs, s, d, es);
    }
  }

  /** The last step of a merge: the emptied source directory is removed. */
  lemma RemoveAfterMerge(fs: Fs, m: Fs, s: Path, d: Path, es: seq<Entry>)
    requires Incomparable(s, d) && Exists(fs, d)
    requires Lookup(fs, s) == Some(Dir(es)) && RemoveDir(m, s).ok
    requires EntriesMoved(fs, m, s, d, es)
    ensures var o := RemoveDir(m, s).fs;
      WellFormed(o) && Framed(fs, o, s, d) && SourceGone(o, s) &&
      KeepsDirsAbove(fs, o, d) && MergedInto(fs, o, s, d)
    ensures d != [] && IsDirNode(Lookup(fs, Parent(d)))
  {
    RemoveKeepsFrame(fs, m, s, d, es);
    RemoveKeepsMerged(fs, m, s, d, es);
    DestinationParent(fs, s, d);
  }

  /** A destination incomparable with the source is not the root, and its parent is a directory. */
  lemma DestinationParent(fs: Fs, s: Path, d: Path)
    requires Incomparable(s, d) && Exists(fs, d)
    ensures d != [] && IsDirNode(Lookup(fs, Parent(d)))
  {
    assert d != [] by {
      assert [] <= s;
    }
    assert Parent(d) + [Last(d)] == d;
    AncestorIsDir(fs.root, Parent(d), [Last(d)]);
  }

  /** Removing the emptied source leaves it gone and the rest of the tree as the merge left it. */
  lemma RemoveKeepsFrame(fs: Fs, m: Fs, s: Path, d: Path, es: seq<Entry>)
    requires Incomparable(s, d) && RemoveDir(m, s).ok
    requires WellFormed(m) && Framed(fs, m, s, d)
    requires forall q :: q <= d && IsDirNode(Lookup(fs, q)) ==> IsDirNode(Lookup(m, q))
    ensures var o := RemoveDir(m, s).fs;
      WellFormed(o) && Framed(fs, o, s, d) && SourceGone(o, s) && KeepsDirsAbove(fs, o, d)
  {
    var o := Delete(m, s);
    DeleteWellFormed(m.root, s);
    forall q | Incomparable(q, s) && Incomparable(q, d)
      ensures Lookup(o, q) == Lookup(fs, q)
    {
      RemoveEffect(m, s, q);
    }
    forall r
      ensures Lookup(o, s + r) == None
    {
      RemoveEffect(m, s, s + r);
    }
    forall q | q < d && IsDirNode(Lookup(fs, q))
      ensures IsDirNode(Lookup(o, q))
    {
      AboveSplit(q, s, d);
      RemoveEffect(m, s, q);
    }
  }

  /** Removing the emptied source keeps every merged file below `d`. */
  lemma RemoveKeepsMerged(fs: Fs, m: Fs, s: Path, d: Path, es: seq<Entry>)
    requires Incomparable(s, d) && Exists(fs, d)
    requires Lookup(fs, s) == Some(Dir(es)) && RemoveDir(m, s).ok
    requires EntriesMoved(fs, m, s, d, es)
    ensures MergedInto(fs, RemoveDir(m, s).fs, s, d)
  {
    var o := Delete(m, s);
    forall r
      ensures FileAt(o, d + r) == Merged(fs, s, d, r)
    {
      IncomparableExtend(s, d, r);
      RemoveEffect(m, s, d + r);
      MergedBeforeRemove(fs, m, s, d, es, r);
    }
  }

  /**
   * What merging the entries `es` of `s` into `d` leaves: the entries named
   * in `es` are merged, the other names below `d` are untouched, the
   * directories at and above `d` stay, nothing else changes.
   */
  ghost predicate EntriesMoved(fs: Fs, o: Fs, s: Path, d: Path, es: seq<Entry>) {
    && WellFormed(o) && Framed(fs, o, s, d)
    && (forall q :: q <= d && IsDirNode(Lookup(fs, q)) ==> IsDirNode(Lookup(o, q)))
    && (IsDirNode(Lookup(fs, d)) || o == fs)
    && (forall r :: r != [] && Find(es, r[0]).None? ==> Lookup(o, d + r) == Lookup(fs, d + r))
    && (forall r :: r != [] && Find(es, r[0]).Some? ==> FileAt(o, d + r) == Merged(fs, s, d, r))
  }

  /** Before the source is removed, every file below `d` is already the merged one. */
  lemma MergedBeforeRemove(fs: Fs, m: Fs, s: Path, d: Path, es: seq<Entry>, r: Path)
    requires Lookup(fs, s) == Some(Dir(es)) && EntriesMoved(fs, m, s, d, es)
    ensures FileAt(m, d + r) == Merged(fs, s, d, r)
  {
    LookupAppend(fs.root, s, r);
    if r == [] {
      assert d + r == d && s + r == s;
    }
  }

  /** The loop over the entries `es` of `s`, each merged into `d`. */
  lemma {:induction false} MoveEntriesFacts(fs: Fs, s: Path, d: Path, es: seq<Entry>)
    requires WellFormed(fs) && ValidPath(d) && Incomparable(s, d) && WellFormedEntries(es)
    requires forall k :: 0 <= k < |es| ==> Lookup(fs, s + [es[k].name]) == Some(es[k].node)
    requires MoveEntries(fs, s, d, es).ok
    ensures EntriesMoved(fs, MoveEntries(fs, s, d, es).fs, s, d, es)
    decreases es, 0
  {
    if es != [] {
      var e := es[0];
      var rest := es[1..];
      var o1 := MoveEntry(fs, s, d, e);
      MoveEntryFacts(fs, s, d, e);
      forall k | 0 <= k < |rest|
        ensures Lookup(o1.fs, s + [rest[k].name]) == Some(rest[k].node)
      {
        assert rest[k] == es[k + 1];
        EntryFound(rest, k);
        assert rest[k].name != e.name;
        SiblingsApart(s, [rest[k].name], e.name);
        IncomparableBelow(s, d, [rest[k].name], [e.name]);
      }
      MoveEntriesFacts(o1.fs, s, d, rest);
      ComposeEntries(fs, o1.fs, MoveEntries(o1.fs, s, d, rest).fs, s, d, es);
    }
  }

  /** The first entry moved, then the rest: the two steps add up to the whole loop. */
  lemma ComposeEntries(fs: Fs, o1: Fs, o: Fs, s: Path, d: Path, es: seq<Entry>)
    requires es != [] && WellFormedEntries(es) && Incomparable(s, d)
    requires var x := es[0].name;
      Framed(fs, o1, s + [x], d + [x]) && KeepsDirsAbove(fs, o1, d + [x]) &&
      MergedInto(fs, o1, s + [x], d + [x]) && IsDirNode(Lookup(fs, d))
    requires EntriesMoved(o1, o, s, d, es[1..])
    ensures EntriesMoved(fs, o, s, d, es)
  {
    var x := es[0].name;
    var sx := s + [x];
    var dx := d + [x];
    forall q | Incomparable(q, s) && Incomparable(q, d)
      ensures Lookup(o, q) == Lookup(fs, q)
    {
      IncomparableExtend(q, s, [x]);
      IncomparableExtend(q, d, [x]);
    }
    forall q | q <= d && IsDirNode(Lookup(fs, q))
      ensures IsDirNode(Lookup(o, q))
    {
      assert q < dx;
    }
    forall r | r != [] && Find(es, r[0]).None?
      ensures Lookup(o, d + r) == Lookup(fs, d + r)
    {
      SiblingsApart(d, r, x);
      IncomparableBelow(d, s, r, [x]);
    }
    forall r | r != [] && Find(es, r[0]).Some?
      ensures FileAt(o, d + r) == Merged(fs, s, d, r)
    {
      ComposeMerged(fs, o1, o, s, d, es, r);
    }
  }

  /** One file below `d` after the first entry and then the rest are moved. */
  lemma ComposeMerged(fs: Fs, o1: Fs, o: Fs, s: Path, d: Path, es: seq<Entry>, r: Path)
    requires es != [] && WellFormedEntries(es) && Incomparable(s, d)
    requires var x := es[0].name;
      Framed(fs, o1, s + [x], d + [x]) && MergedInto(fs, o1, s + [x], d + [x])
    requires EntriesMoved(o1, o, s, d, es[1..])
    requires r != [] && Find(es, r[0]).Some?
    ensures FileAt(o, d + r) == Merged(fs, s, d, r)
  {
    var x := es[0].name;
    if r[0] == x {
      assert Find(es[1..], x).None?;
      MergedBelowFirst(fs, o1, o, s, d, r);
    } else {
      assert Find(es[1..], r[0]).Some?;
      SiblingsApart(d, r, x);
      IncomparableBelow(d, s, r, [x]);
      SiblingsApart(s, r, x);
      IncomparableBelow(s, d, r, [x]);
      MergedBelowOther(fs, o1, o, s, d, r);
    }
  }

  /** A file below the first entry: put there by that entry's move, left alone by the rest. */
  lemma MergedBelowFirst(fs: Fs, o1: Fs, o: Fs, s: Path, d: Path, r: Path)
    requires r != []
    requires MergedInto(fs, o1, s + [r[0]], d + [r[0]])
    requires Lookup(o, d + r) == Lookup(o1, d + r)
    ensures FileAt(o, d + r) == Merged(fs, s, d, r)
  {
    ChildPath(d, r);
    ChildPath(s, r);
    assert FileAt(o1, (d + [r[0]]) + r[1..]) == Merged(fs, s + [r[0]], d + [r[0]], r[1..]);
  }

  /** A file below a later entry: the first entry's move did not touch either side. */
  lemma MergedBelowOther(fs: Fs, o1: Fs, o: Fs, s: Path, d: Path, r: Path)
    requires FileAt(o, d + r) == Merged(o1, s, d, r)
    requires Lookup(o1, s + r) == Lookup(fs, s + r) && Lookup(o1, d + r) == Lookup(fs, d + r)
    ensures FileAt(o, d + r) == Merged(fs, s, d, r)
  {
  }

  /** One entry `e` of `s`, moved to `d + [e.name]`. */
  lemma {:induction false} MoveEntryFacts(fs: Fs, s: Path, d: Path, e: Entry)
    requires WellFormed(fs) && ValidPath(d) && Incomparable(s, d) && e.name != ""
    requires Lookup(fs, s + [e.name]) == Some(e.node)
    requires MoveEntry(fs, s, d, e).ok
    ensures var o := MoveEntry(fs, s, d, e).fs;
      WellFormed(o) && Framed(fs, o, s + [e.name], d + [e.name]) &&
      KeepsDirsAbove(fs, o, d + [e.name]) && MergedInto(fs, o, s + [e.name], d + [e.name])
    ensures IsDirNode(Lookup(fs, d))
    decreases e, 2
  {
    var sx := s + [e.name];
    var dx := d + [e.name];
    IncomparableBelow(s, d, [e.name], [e.name]);
    assert ValidPath(dx);
    assert Parent(dx) == d;
    if IsDir(fs, sx) {
      MoveTreeFacts(fs, sx, dx, e.node);
    } else {
      RenameFacts(fs, sx, dx);
    }
  }
}
