/**
 * `FileStats`: the four per-category counters every analysis and every
 * organising run returns.
 */
module Types {
  import opened Config

  /** One counter per category; `usize` in the source, unbounded here. */
  datatype FileStats = FileStats(music: nat, videos: nat, images: nat, docs: nat)

  /** The counter of a category. */
  function Count(s: FileStats, c: Category): nat {
    match c
    case Music => s.music
    case Video => s.videos
    case Image => s.images
    case Docs => s.docs
  }

  function Total(s: FileStats): nat {
    s.music + s.videos + s.images + s.docs
  }

  /** `FileStats::new` (and `FileStats::default`): every counter at zero. */
  function New(): (s: FileStats)
    ensures forall c :: Count(s, c) == 0
  {
    FileStats(0, 0, 0, 0)
  }

  /** The value `self` holds after `self.add(other)`: each counter plus the other's. */
  function Add(self: FileStats, other: FileStats): (r: FileStats)
    ensures forall c :: Count(r, c) == Count(self, c) + Count(other, c)
  {
    FileStats(self.music + other.music, self.videos + other.videos,
              self.images + other.images, self.docs + other.docs)
  }

  /**
   * A `FileStats` held in place, for the callers that accumulate into one
   * with `add(&mut self, ..)`.
   */
  class FileStatsCell {
    var music: nat
    var videos: nat
    var images: nat
    var docs: nat

    /** The four fields read out as a value. */
    function Value(): FileStats
      reads this
    {
      FileStats(music, videos, images, docs)
    }

    /** `FileStats::new()`. */
    constructor ()
      ensures Value() == New()
    {
      music, videos, images, docs := 0, 0, 0, 0;
    }

    /** `self.add(&other)`: every field of `self` grows by the other's, in place. */
    method Add(other: FileStats)
      modifies this
      ensures forall c :: Count(Value(), c) == Count(old(Value()), c) + Count(other, c)
    {
      music := music + other.music;
      videos := videos + other.videos;
      images := images + other.images;
      docs := docs + other.docs;
    }
  }

  /** One file of category `c`: that counter at 1, the others at 0. */
  function Unit(c: Category): (s: FileStats)
    ensures Count(s, c) == 1
    ensures forall d :: d != c ==> Count(s, d) == 0
    ensures Total(s) == 1
  {
    match c
    case Music => FileStats(1, 0, 0, 0)
    case Video => FileStats(0, 1, 0, 0)
    case Image => FileStats(0, 0, 1, 0)
    case Docs => FileStats(0, 0, 0, 1)
  }

  /** Two stats with the same four counters are the same value. */
  lemma {:induction false} CountsDetermine(a: FileStats, b: FileStats)
    requires forall c :: Count(a, c) == Count(b, c)
    ensures a == b
  {
    assert Count(a, Music) == Count(b, Music);
    assert Count(a, Video) == Count(b, Video);
    assert Count(a, Image) == Count(b, Image);
    assert Count(a, Docs) == Count(b, Docs);
  }

  /** `add` never decreases a counter of `self`. */
  lemma AddMonotone(self: FileStats, other: FileStats)
    ensures forall c :: Count(Add(self, other), c) >= Count(self, c)
  {
  }

  /** Adding zero is the identity, on either side. */
  lemma AddZero(s: FileStats)
    ensures Add(s, New()) == s && Add(New(), s) == s
  {
  }

  /** The total of a sum is the sum of the totals. */
  lemma AddTotal(a: FileStats, b: FileStats)
    ensures Total(Add(a, b)) == Total(a) + Total(b)
  {
  }

  lemma AddCommutes(a: FileStats, b: FileStats)
    ensures Add(a, b) == Add(b, a)
  {
  }

  lemma AddAssociates(a: FileStats, b: FileStats, c: FileStats)
    ensures Add(Add(a, b), c) == Add(a, Add(b, c))
  {
  }

  /** The stats left by adding each element of `xs` in turn into a fresh `FileStats`. */
  function Sum(xs: seq<FileStats>): FileStats
    decreases |xs|
  {
    if xs == [] then New() else Add(Sum(xs[..|xs| - 1]), xs[|xs| - 1])
  }

  lemma {:induction false} SumAppend(xs: seq<FileStats>, ys: seq<FileStats>)
    ensures Sum(xs + ys) == Add(Sum(xs), Sum(ys))
    decreases |ys|
  {
    if ys == [] {
      assert xs + ys == xs;
    } else {
      var zs := xs + ys;
      assert zs[..|zs| - 1] == xs + ys[..|ys| - 1];
      assert zs[|zs| - 1] == ys[|ys| - 1];
      SumAppend(xs, ys[..|ys| - 1]);
    }
  }

  /** Each counter of a sum is the sum of that counter over the elements. */
  lemma {:induction false} SumCount(xs: seq<FileStats>, c: Category)
    ensures Count(Sum(xs), c) == CountSum(xs, c)
    decreases |xs|
  {
    if xs != [] {
      SumCount(xs[..|xs| - 1], c);
    }
  }

  function CountSum(xs: seq<FileStats>, c: Category): nat
    decreases |xs|
  {
    if xs == [] then 0 else CountSum(xs[..|xs| - 1], c) + Count(xs[|xs| - 1], c)
  }

  /** The order in which stats are added does not change the result. */
  lemma {:induction false} SumPermutation(xs: seq<FileStats>, ys: seq<FileStats>)
    requires multiset(xs) == multiset(ys)
    ensures Sum(xs) == Sum(ys)
    decreases |xs|
  {
    if xs == [] {
      assert |ys| == |multiset(ys)| == 0;
    } else {
      var x := xs[|xs| - 1];
      var front := xs[..|xs| - 1];
      assert xs == front + [x];
      assert x in multiset(ys);
      var i :| 0 <= i < |ys| && ys[i] == x;
      var rest := ys[..i] + ys[i + 1..];
      assert ys == ys[..i] + [x] + ys[i + 1..];
      assert multiset(front) == multiset(rest) by {
        assert multiset(xs) == multiset(front) + multiset{x};
        assert multiset(ys) == multiset(ys[..i] + [x]) + multiset(ys[i + 1..]);
        assert multiset(ys[..i] + [x]) == multiset(ys[..i]) + multiset{x};
        assert multiset(rest) == multiset(ys[..i]) + multiset(ys[i + 1..]);
        assert multiset(front) == multiset(xs) - multiset{x};
        assert multiset(rest) == multiset(ys) - multiset{x};
      }
      SumPermutation(front, rest);
      SumAppend(ys[..i] + [x], ys[i + 1..]);
      SumAppend(ys[..i], [x]);
      SumAppend(ys[..i], ys[i + 1..]);
      assert Sum([x]) == Add(New(), x);
      AddZero(x);
      AddAssociates(Sum(ys[..i]), x, Sum(ys[i + 1..]));
      AddCommutes(x, Sum(ys[i + 1..]));
      AddAssociates(Sum(ys[..i]), Sum(ys[i + 1..]), x);
    }
  }
}
