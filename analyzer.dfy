/**
 * Folder analysis: counting the recognised files of a tree (`analyze_folder`)
 * and the majority vote over the four counters (`get_majority_type`).
 */
module Analyzer {
  import opened Wrappers
  import opened Text
  import opened Config
  import opened FileSystem
  import opened Types

  // ---------------------------------------------------------------------
  // Classification of the items of a walk

  /**
   * The `match` of `analyze_folder` on a lower-cased extension: four literal
   * groups, tried in the order music, video, image, docs.
   */
  function HardcodedCategory(e: string): Option<Category> {
    match e
    case "mp3" | "ogg" | "wav" | "flac" => Some(Music)
    case "mp4" | "avi" | "mkv" | "mov" => Some(Video)
    case "png" | "jpg" | "jpeg" | "gif" => Some(Image)
    case "pdf" | "txt" | "epub" => Some(Docs)
    case _ => None
  }

  /** The literal groups of the analyzer are the default extension lists of the configuration. */
  lemma HardcodedIsDefault(e: string)
    ensures HardcodedCategory(e) == Classify(DefaultExtensions(), e)
  {
  }

  /** The category of a file name: its extension, lower-cased, classified by `exts`. */
  function FileCategory(exts: FileExtensions, name: string): Option<Category> {
    match Extension(name)
    case None => None
    case Some(e) => Classify(exts, ToLower(e))
  }

  /** The category a walk item contributes: only regular files with a recognised extension count. */
  function VisitCategory(exts: FileExtensions, v: Visit): Option<Category> {
    if v.node.File? && v.path != [] then FileCategory(exts, Last(v.path)) else None
  }

  /** What one walk item adds to the counters. */
  function VisitStats(exts: FileExtensions, v: Visit): FileStats {
    match VisitCategory(exts, v)
    case None => New()
    case Some(c) => Unit(c)
  }

  /** The counters after visiting `vs` in order, starting from zero. */
  function WalkStats(exts: FileExtensions, vs: seq<Visit>): FileStats
    decreases |vs|
  {
    if vs == [] then New() else Add(WalkStats(exts, vs[..|vs| - 1]), VisitStats(exts, vs[|vs| - 1]))
  }

  /** The items of `vs` of category `c`, in walk order. */
  function OfCategory(exts: FileExtensions, vs: seq<Visit>, c: Category): (r: seq<Visit>)
    ensures |r| <= |vs|
    ensures forall v :: v in r ==> v in vs && VisitCategory(exts, v) == Some(c)
    ensures forall v :: v in vs && VisitCategory(exts, v) == Some(c) ==> v in r
    decreases |vs|
  {
    if vs == [] then []
    else
      var last := vs[|vs| - 1];
      assert vs == vs[..|vs| - 1] + [last];
      OfCategory(exts, vs[..|vs| - 1], c) + (if VisitCategory(exts, last) == Some(c) then [last] else [])
  }

  /** The items of `vs` of any of the four categories, in walk order. */
  function Recognised(exts: FileExtensions, vs: seq<Visit>): (r: seq<Visit>)
    ensures |r| <= |vs|
    ensures forall v :: v in r ==> v in vs && VisitCategory(exts, v).Some?
    ensures forall v :: v in vs && VisitCategory(exts, v).Some? ==> v in r
    decreases |vs|
  {
    if vs == [] then []
    else
      var last := vs[|vs| - 1];
      assert vs == vs[..|vs| - 1] + [last];
      Recognised(exts, vs[..|vs| - 1]) + (if VisitCategory(exts, last).Some? then [last] else [])
  }

  /** Each counter is the number of items of its category: one per file, none for anything else. */
  lemma {:induction false} WalkStatsCounts(exts: FileExtensions, vs: seq<Visit>, c: Category)
    ensures Count(WalkStats(exts, vs), c) == |OfCategory(exts, vs, c)|
    decreases |vs|
  {
    if vs != [] {
      WalkStatsCounts(exts, vs[..|vs| - 1], c);
    }
  }

  /** The four counters add up to the number of recognised items. */
  lemma {:induction false} WalkStatsTotal(exts: FileExtensions, vs: seq<Visit>)
    ensures Total(WalkStats(exts, vs)) == |Recognised(exts, vs)|
    decreases |vs|
  {
    if vs != [] {
      var front := vs[..|vs| - 1];
      WalkStatsTotal(exts, front);
      AddTotal(WalkStats(exts, front), VisitStats(exts, vs[|vs| - 1]));
    }
  }

  /** Upper-casing the extension of a name does not change its category. */
  lemma FileCategoryCaseInsensitive(exts: FileExtensions, stem: string, e: string)
    requires stem != "" && '.' !in e && (stem != "." || e != "")
    ensures FileCategory(exts, stem + "." + ToUpper(e)) == FileCategory(exts, stem + "." + e)
  {
    var u := ToUpper(e);
    assert '.' !in u by {
      assert forall i :: 0 <= i < |u| ==> u[i] == UpperChar(e[i]) && e[i] != '.';
    }
    assert |u| == |e|;
    ExtensionOfJoin(stem, e);
    ExtensionOfJoin(stem, u);
    ToLowerOfUpper(e);
  }

  /** "song.MP3" and "song.mp3" are both music. */
  lemma UpperCaseExtensionExample()
    ensures FileCategory(DefaultExtensions(), "song.MP3") == Some(Music)
    ensures FileCategory(DefaultExtensions(), "song.mp3") == Some(Music)
  {
    assert "song.mp3" == "song" + "." + "mp3";
    assert "song.MP3" == "song" + "." + "MP3";
    assert ToUpper("mp3") == "MP3";
    assert ToLower("mp3") == "mp3";
    FileCategoryCaseInsensitive(DefaultExtensions(), "song", "mp3");
    ExtensionOfJoin("song", "mp3");
  }

  /**
   * `analyze_folder`: one counter step per walk item, with the analyzer's
   * literal groups; the result is the fold of the default classification over
   * the walk of `path`.
   */
  method AnalyzeFolder(fs: Fs, path: Path) returns (stats: FileStats)
    ensures stats == WalkStats(DefaultExtensions(), Walk(fs, path))
  {
    var entries := Walk(fs, path);
    stats := FileStats(0, 0, 0, 0);
    var i := 0;
    while i < |entries|
      invariant 0 <= i <= |entries|
      invariant stats == WalkStats(DefaultExtensions(), entries[..i])
    {
      var entry := entries[i];
      var category: Option<Category> := None;
      if entry.node.File? && entry.path != [] {
        match Extension(Last(entry.path)) {
          case Some(extension) =>
            category := HardcodedCategory(ToLower(extension));
            HardcodedVisit(entry, extension);
          case None =>
        }
      }
      assert category == VisitCategory(DefaultExtensions(), entry);
      ghost var prev := stats;
      match category {
        case Some(Music) => stats := stats.(music := stats.music + 1);
        case Some(Video) => stats := stats.(videos := stats.videos + 1);
        case Some(Image) => stats := stats.(images := stats.images + 1);
        case Some(Docs) => stats := stats.(docs := stats.docs + 1);
        case None =>
      }
      CountStep(DefaultExtensions(), entries, i, prev, stats, category);
      i := i + 1;
    }
    assert entries[..|entries|] == entries;
  }

  /** On a file with an extension, the literal groups give the item's default category. */
  lemma HardcodedVisit(v: Visit, e: string)
    requires v.node.File? && v.path != [] && Extension(Last(v.path)) == Some(e)
    ensures HardcodedCategory(ToLower(e)) == VisitCategory(DefaultExtensions(), v)
  {
    HardcodedIsDefault(ToLower(e));
  }

  /** The counter step the analyzer takes for an item extends the fold by that item. */
  lemma CountStep(exts: FileExtensions, vs: seq<Visit>, i: nat, prev: FileStats, next: FileStats,
                  category: Option<Category>)
    requires i < |vs| && prev == WalkStats(exts, vs[..i]) && category == VisitCategory(exts, vs[i])
    requires category == Some(Music) ==> next == prev.(music := prev.music + 1)
    requires category == Some(Video) ==> next == prev.(videos := prev.videos + 1)
    requires category == Some(Image) ==> next == prev.(images := prev.images + 1)
    requires category == Some(Docs) ==> next == prev.(docs := prev.docs + 1)
    requires category == None ==> next == prev
    ensures next == WalkStats(exts, vs[..i + 1])
  {
    assert vs[..i + 1][..i] == vs[..i];
    assert WalkStats(exts, vs[..i + 1]) == Add(prev, VisitStats(exts, vs[i]));
    match category {
      case None =>
        assert VisitStats(exts, vs[i]) == New();
      case Some(c) =>
        assert VisitStats(exts, vs[i]) == Unit(c);
        UnitStep(prev, next, c);
    }
  }

  /** Raising the counter of `c` by one is adding `Unit(c)`. */
  lemma UnitStep(prev: FileStats, next: FileStats, c: Category)
    requires c == Music ==> next == prev.(music := prev.music + 1)
    requires c == Video ==> next == prev.(videos := prev.videos + 1)
    requires c == Image ==> next == prev.(images := prev.images + 1)
    requires c == Docs ==> next == prev.(docs := prev.docs + 1)
    ensures next == Add(prev, Unit(c))
  {
    match c
    case Music =>
    case Video =>
    case Image =>
    case Docs =>
  }

  // ---------------------------------------------------------------------
  // Majority vote

  /** One `(count, label)` pair of `get_majority_type`. */
  datatype Tally = Tally(count: nat, category: Category)

  /** The order the stable descending sort produces: larger count first, then the earlier category. */
  predicate Before(x: Tally, y: Tally) {
    x.count > y.count || (x.count == y.count && Rank(x.category) < Rank(y.category))
  }

  /** The four pairs in the order the source lists them. */
  function Tallies(s: FileStats): seq<Tally> {
    [Tally(s.music, Music), Tally(s.videos, Video), Tally(s.images, Image), Tally(s.docs, Docs)]
  }

  /** The source lists the pairs in category order. */
  lemma TalliesAscending(s: FileStats)
    ensures RanksFrom(Tallies(s), 0)
  {
  }

  /** `c` has a largest count, and every earlier category has a strictly smaller one. */
  predicate IsTop(s: FileStats, c: Category) {
    forall d :: d != c ==> Before(Tally(Count(s, c), c), Tally(Count(s, d), d))
  }

  /** The category with the largest count, ties going to the earliest. */
  function Top(s: FileStats): Category {
    if s.music >= s.videos && s.music >= s.images && s.music >= s.docs then Music
    else if s.videos >= s.images && s.videos >= s.docs then Video
    else if s.images >= s.docs then Image
    else Docs
  }

  /** `Top` is the one category that is top. */
  lemma TopIff(s: FileStats, c: Category)
    ensures IsTop(s, c) <==> c == Top(s)
  {
    var t := Top(s);
    assert Before(Tally(Count(s, t), t), Tally(Count(s, Music), Music)) || t == Music;
    assert Before(Tally(Count(s, t), t), Tally(Count(s, Video), Video)) || t == Video;
    assert Before(Tally(Count(s, t), t), Tally(Count(s, Image), Image)) || t == Image;
    assert Before(Tally(Count(s, t), t), Tally(Count(s, Docs), Docs)) || t == Docs;
    if c != t {
      assert !Before(Tally(Count(s, c), c), Tally(Count(s, t), t));
    }
  }

  /** The reference result of `get_majority_type`: the top category, unless its count is 0. */
  function Majority(s: FileStats): Option<Category> {
    if Count(s, Top(s)) > 0 then Some(Top(s)) else None
  }

  /** The majority is the category whose count is positive and top. */
  lemma MajorityIff(s: FileStats, c: Category)
    ensures Majority(s) == Some(c) <==> Count(s, c) > 0 && IsTop(s, c)
  {
    TopIff(s, c);
  }

  /** The winner's count is at least every other count; ties go to the earliest category. */
  lemma MajorityIsLargest(s: FileStats, c: Category, d: Category)
    requires Majority(s) == Some(c)
    ensures Count(s, c) >= Count(s, d)
    ensures Rank(d) < Rank(c) ==> Count(s, d) < Count(s, c)
  {
    TopIff(s, c);
    if d != c {
      assert Before(Tally(Count(s, c), c), Tally(Count(s, d), d));
    }
  }

  /** There is no majority exactly when all four counts are 0. */
  lemma MajorityNoneIff(s: FileStats)
    ensures Majority(s).None? <==> forall c :: Count(s, c) == 0
  {
    var t := Top(s);
    TopIff(s, t);
    if Majority(s).None? {
      forall c ensures Count(s, c) == 0 {
        if c != t {
          assert Before(Tally(Count(s, t), t), Tally(Count(s, c), c));
        }
      }
    }
  }

  /** Concrete votes: (5, 2, 1, 0) is music, all zeros is none, a tie goes to the earlier category. */
  lemma MajorityExamples()
    ensures Majority(FileStats(5, 2, 1, 0)) == Some(Music)
    ensures Majority(New()) == None
    ensures Majority(FileStats(0, 3, 0, 3)) == Some(Video)
  {
  }

  /** The two ends of a sorted array: the head of a sorted permutation of the tallies is the top one. */
  lemma SortedHeadIsTop(s: FileStats, t: seq<Tally>)
    requires multiset(t) == multiset(Tallies(s))
    requires |t| == 4
    requires SortedBetween(t, 0, 4)
    ensures t[0] == Tally(Count(s, Top(s)), Top(s))
  {
    var ts := Tallies(s);
    assert forall k :: 0 < k < 4 ==> Before(t[0], t[k]);
    assert t[0] in multiset(ts);
    assert t[0].count == Count(s, t[0].category);
    var c := t[0].category;
    forall d | d != c
      ensures Before(Tally(Count(s, c), c), Tally(Count(s, d), d))
    {
      var x := Tally(Count(s, d), d);
      assert x in ts;
      assert x in multiset(t);
      var k :| 0 <= k < 4 && t[k] == x;
      assert k != 0;
    }
    TopIff(s, c);
  }

  /** `s[lo..hi]` is in `Before` order. */
  predicate SortedBetween(s: seq<Tally>, lo: int, hi: int)
    requires 0 <= lo <= hi <= |s|
  {
    forall p, q :: lo <= p < q < hi ==> Before(s[p], s[q])
  }

  /** Every category in `s[..k]` comes earlier than every category in `s[k..]`, which are ascending. */
  predicate RanksFrom(s: seq<Tally>, k: int)
    requires 0 <= k <= |s|
  {
    && (forall p, q :: 0 <= p < k <= q < |s| ==> Rank(s[p].category) < Rank(s[q].category))
    && (forall p, q :: k <= p < q < |s| ==> Rank(s[p].category) < Rank(s[q].category))
  }

  /** The state of an insertion of `x`, so far moved from position `i` to `j`. */
  predicate Inserting(s: seq<Tally>, j: int, i: int, x: Tally)
  {
    && 0 <= j <= i < |s|
    && s[j] == x
    && SortedBetween(s, 0, j) && SortedBetween(s, j + 1, i + 1)
    && (forall p, q :: 0 <= p < j < q <= i ==> Before(s[p], s[q]))
    && (forall q :: j < q <= i ==> Before(x, s[q]))
    && (forall p :: 0 <= p < j ==> Rank(s[p].category) < Rank(x.category))
    && RanksFrom(s, i + 1)
  }

  function Swapped(s: seq<Tally>, j: int): seq<Tally>
    requires 0 < j < |s|
  {
    s[j - 1 := s[j]][j := s[j - 1]]
  }

  /** Insertion steps of `SortByCountDescending`. */
  lemma InsertStart(s: seq<Tally>, i: int)
    requires 0 < i < |s| && SortedBetween(s, 0, i) && RanksFrom(s, i)
    ensures Inserting(s, i, i, s[i])
  {
  }

  lemma InsertStep(s: seq<Tally>, j: int, i: int, x: Tally)
    requires Inserting(s, j, i, x) && j > 0 && s[j - 1].count < s[j].count
    ensures Inserting(Swapped(s, j), j - 1, i, x)
    ensures multiset(Swapped(s, j)) == multiset(s)
  {
    SwapPermutes(s, j);
    var t := Swapped(s, j);
    assert t[j] == s[j - 1] && t[j - 1] == x;
    assert Before(x, s[j - 1]);
  }

  lemma SwapPermutes(s: seq<Tally>, j: int)
    requires 0 < j < |s|
    ensures multiset(Swapped(s, j)) == multiset(s)
  {
  }

  lemma InsertDone(s: seq<Tally>, j: int, i: int, x: Tally)
    requires Inserting(s, j, i, x) && (j == 0 || s[j - 1].count >= s[j].count)
    ensures SortedBetween(s, 0, i + 1) && RanksFrom(s, i + 1)
  {
    if j > 0 {
      assert Before(s[j - 1], x);
    }
  }

  /**
   * `sort_by(|a, b| b.0.cmp(&a.0))` on an array whose categories come in
   * ascending order: an insertion sort that moves an element left only past
   * a strictly smaller count, so equal counts keep their order.
   */
  method SortByCountDescending(a: array<Tally>)
    requires RanksFrom(a[..], 0)
    modifies a
    ensures multiset(a[..]) == old(multiset(a[..]))
    ensures SortedBetween(a[..], 0, a.Length)
  {
    if a.Length == 0 {
      return;
    }
    var i := 1;
    while i < a.Length
      invariant 1 <= i <= a.Length
      invariant multiset(a[..]) == old(multiset(a[..]))
      invariant SortedBetween(a[..], 0, i) && RanksFrom(a[..], i)
    {
      Insert(a, i);
      i := i + 1;
    }
  }

  /** Moves `a[i]` left past every strictly smaller count before it. */
  method Insert(a: array<Tally>, i: int)
    requires 0 < i < a.Length && SortedBetween(a[..], 0, i) && RanksFrom(a[..], i)
    modifies a
    ensures multiset(a[..]) == old(multiset(a[..]))
    ensures SortedBetween(a[..], 0, i + 1) && RanksFrom(a[..], i + 1)
  {
    var x := a[i];
    var j := i;
    InsertStart(a[..], i);
    while j > 0 && a[j - 1].count < a[j].count
      invariant Inserting(a[..], j, i, x)
      invariant multiset(a[..]) == old(multiset(a[..]))
    {
      InsertStep(a[..], j, i, x);
      a[j - 1], a[j] := a[j], a[j - 1];
      j := j - 1;
    }
    InsertDone(a[..], j, i, x);
  }

  /**
   * `get_majority_type`: the four pairs sorted by descending count, stably;
   * the head's category when its count is positive.
   */
  method GetMajorityType(stats: FileStats) returns (r: Option<Category>)
    ensures r == Majority(stats)
  {
    var typeCounts := new Tally[4];
    typeCounts[0] := Tally(stats.music, Music);
    typeCounts[1] := Tally(stats.videos, Video);
    typeCounts[2] := Tally(stats.images, Image);
    typeCounts[3] := Tally(stats.docs, Docs);
    assert typeCounts[..] == Tallies(stats);
    TalliesAscending(stats);
    SortByCountDescending(typeCounts);
    ghost var sorted := typeCounts[..];
    assert SortedBetween(sorted, 0, 4);
    SortedHeadIsTop(stats, sorted);
    assert typeCounts[0] == sorted[0];
    if typeCounts[0].count > 0 {
      r := Some(typeCounts[0].category);
    } else {
      r := None;
    }
  }
}
