/**
 * `AsyncAnalyzer`: the non-recursive directory count, the per-file count,
 * and the sums over several directories or files. The asynchronous I/O is
 * sequential here; each call is an ordinary step on the filesystem value.
 */
module AsyncAnalysis {
  import opened Wrappers
  import opened Text
  import opened Config
  import opened FileSystem
  import opened Types
  import opened Analyzer

  /** The analyzer: a shared configuration and a concurrency bound. */
  datatype AsyncAnalyzer = AsyncAnalyzer(config: Config, maxConcurrent: nat)

  /** Why a directory could not be analysed: its listing could not be read. */
  datatype AnalysisError = ReadDirFailed(path: Path)

  /** `AsyncAnalyzer::new`, with the number of CPUs as a parameter: the smaller of 4 and twice that number. */
  function NewAnalyzer(config: Config, cpus: nat): (a: AsyncAnalyzer)
    ensures a.config == config
    ensures a.maxConcurrent <= 4 && a.maxConcurrent <= 2 * cpus
    ensures a.maxConcurrent == 4 || a.maxConcurrent == 2 * cpus
  {
    AsyncAnalyzer(config, if 4 < cpus * 2 then 4 else cpus * 2)
  }

  /** `AsyncAnalyzer::default`: the default configuration. */
  function DefaultAnalyzer(cpus: nat): (a: AsyncAnalyzer)
    ensures a.config == DefaultConfig() && a.maxConcurrent <= 4
  {
    NewAnalyzer(DefaultConfig(), cpus)
  }

  /**
   * The counters `get_file_stats` returns for `path`: one counter at 1 for
   * a regular file whose lower-cased extension is in one of the four lists
   * (the first that holds it), all zero otherwise.
   */
  function FileStatsOf(a: AsyncAnalyzer, fs: Fs, path: Path): (s: FileStats)
    ensures Total(s) <= 1
    ensures Total(s) == 1 <==>
      IsFile(fs, path) && path != [] && FileCategory(a.config.fileExtensions, Last(path)).Some?
  {
    if IsFile(fs, path) && path != [] then
      match FileCategory(a.config.fileExtensions, Last(path))
      case None => New()
      case Some(c) => Unit(c)
    else New()
  }

  /** The counter at 1 is the one of the file's category. */
  lemma FileStatsOfCounts(a: AsyncAnalyzer, fs: Fs, path: Path, c: Category)
    ensures Count(FileStatsOf(a, fs, path), c) == 1 <==>
      IsFile(fs, path) && path != [] && FileCategory(a.config.fileExtensions, Last(path)) == Some(c)
  {
  }

  /** The counters after the entries `es` of `dir`, in listing order. */
  function EntriesStats(a: AsyncAnalyzer, fs: Fs, dir: Path, es: seq<Entry>): FileStats
    decreases |es|
  {
    if es == [] then New()
    else Add(EntriesStats(a, fs, dir, es[..|es| - 1]), FileStatsOf(a, fs, Join(dir, es[|es| - 1].name)))
  }

  /** What `analyze_single_directory` returns: an error when the directory cannot be listed. */
  function DirectoryStats(a: AsyncAnalyzer, fs: Fs, dir: Path): (r: Result<FileStats, AnalysisError>)
    ensures r.Ok? <==> IsDir(fs, dir)
  {
    match ReadDir(fs, dir)
    case None => Err(ReadDirFailed(dir))
    case Some(es) => Ok(EntriesStats(a, fs, dir, es))
  }

  /** The names of the entries of `dir` that are regular files of category `c`, in listing order. */
  function FilesOfCategory(a: AsyncAnalyzer, fs: Fs, dir: Path, es: seq<Entry>, c: Category): (r: seq<string>)
    ensures |r| <= |es|
    ensures forall n :: n in r ==> exists k :: 0 <= k < |es| && es[k].name == n
    ensures forall n :: n in r <==> exists k :: 0 <= k < |es| && es[k].name == n && IsFileOf(a, fs, dir, n, c)
    decreases |es|
  {
    if es == [] then []
    else
      var front := es[..|es| - 1];
      var last := es[|es| - 1];
      var rest := FilesOfCategory(a, fs, dir, front, c);
      KeptNames(a, fs, dir, es, front, c, rest);
      rest + if IsFileOf(a, fs, dir, last.name, c) then [last.name] else []
  }

  /** Keeping the last entry when it qualifies extends the names kept from the others. */
  lemma KeptNames(a: AsyncAnalyzer, fs: Fs, dir: Path, es: seq<Entry>, front: seq<Entry>, c: Category, rest: seq<string>)
    requires es != [] && front == es[..|es| - 1]
    requires forall n :: n in rest <==>
      exists k :: 0 <= k < |front| && front[k].name == n && IsFileOf(a, fs, dir, n, c)
    ensures var last := es[|es| - 1].name;
      forall n :: n in rest + (if IsFileOf(a, fs, dir, last, c) then [last] else []) <==>
        exists k :: 0 <= k < |es| && es[k].name == n && IsFileOf(a, fs, dir, n, c)
  {
    assert forall k :: 0 <= k < |front| ==> front[k] == es[k];
  }

  /** Whether the entry `name` of `dir` is a regular file of category `c`. */
  predicate IsFileOf(a: AsyncAnalyzer, fs: Fs, dir: Path, name: string, c: Category) {
    var p := Join(dir, name);
    IsFile(fs, p) && p != [] && FileCategory(a.config.fileExtensions, Last(p)) == Some(c)
  }

  /**
   * Each counter of a directory is the number of its immediate entries that
   * are regular files of that category; sub-directories add nothing.
   */
  lemma {:induction false} EntriesStatsCounts(a: AsyncAnalyzer, fs: Fs, dir: Path, es: seq<Entry>, c: Category)
    ensures Count(EntriesStats(a, fs, dir, es), c) == |FilesOfCategory(a, fs, dir, es, c)|
    decreases |es|
  {
    if es != [] {
      EntriesStatsCounts(a, fs, dir, es[..|es| - 1], c);
      EntriesStatsStep(a, fs, dir, es, c);
      FilesOfCategoryStep(a, fs, dir, es, c);
    }
  }

  /** Whether the last entry of `es` is a regular file of category `c`. */
  predicate LastIsOf(a: AsyncAnalyzer, fs: Fs, dir: Path, es: seq<Entry>, c: Category)
    requires es != []
  {
    IsFileOf(a, fs, dir, es[|es| - 1].name, c)
  }

  lemma EntriesStatsStep(a: AsyncAnalyzer, fs: Fs, dir: Path, es: seq<Entry>, c: Category)
    requires es != []
    ensures Count(EntriesStats(a, fs, dir, es), c) ==
      Count(EntriesStats(a, fs, dir, es[..|es| - 1]), c) + if LastIsOf(a, fs, dir, es, c) then 1 else 0
  {
    var p := Join(dir, es[|es| - 1].name);
    FileStatsOfCounts(a, fs, p, c);
  }

  lemma FilesOfCategoryStep(a: AsyncAnalyzer, fs: Fs, dir: Path, es: seq<Entry>, c: Category)
    requires es != []
    ensures |FilesOfCategory(a, fs, dir, es, c)| ==
      |FilesOfCategory(a, fs, dir, es[..|es| - 1], c)| + if LastIsOf(a, fs, dir, es, c) then 1 else 0
  {
  }

  /** `analyze_single_directory`: the loop over the listing of `path`. */
  method AnalyzeSingleDirectory(a: AsyncAnalyzer, fs: Fs, path: Path) returns (r: Result<FileStats, AnalysisError>)
    ensures r == DirectoryStats(a, fs, path)
  {
    var stats := FileStats(0, 0, 0, 0);
    var fileExtensions := a.config.fileExtensions;
    match ReadDir(fs, path) {
      case None =>
        return Err(ReadDirFailed(path));
      case Some(entries) =>
        var i := 0;
        while i < |entries|
          invariant 0 <= i <= |entries|
          invariant stats == EntriesStats(a, fs, path, entries[..i])
        {
          var entryPath := Join(path, entries[i].name);
          ghost var prev := stats;
          var category: Option<Category> := None;
          if IsFile(fs, entryPath) && entryPath != [] {
            category := FileCategory(fileExtensions, Last(entryPath));
          }
          match category {
            case Some(Music) => stats := stats.(music := stats.music + 1);
            case Some(Video) => stats := stats.(videos := stats.videos + 1);
            case Some(Image) => stats := stats.(images := stats.images + 1);
            case Some(Docs) => stats := stats.(docs := stats.docs + 1);
            case None =>
          }
          assert entries[..i + 1][..i] == entries[..i];
          match category {
            case None =>
              assert FileStatsOf(a, fs, entryPath) == New();
            case Some(c) =>
              assert FileStatsOf(a, fs, entryPath) == Unit(c);
              UnitStep(prev, stats, c);
          }
          i := i + 1;
        }
        assert entries[..|entries|] == entries;
        return Ok(stats);
    }
  }

  /** `get_file_stats`: never fails. */
  method GetFileStats(a: AsyncAnalyzer, fs: Fs, path: Path) returns (r: Result<FileStats, AnalysisError>)
    ensures r == Ok(FileStatsOf(a, fs, path))
  {
    var stats := FileStats(0, 0, 0, 0);
    if IsFile(fs, path) && path != [] {
      match FileCategory(a.config.fileExtensions, Last(path)) {
        case Some(Music) => stats := stats.(music := 1);
        case Some(Video) => stats := stats.(videos := 1);
        case Some(Image) => stats := stats.(images := 1);
        case Some(Docs) => stats := stats.(docs := 1);
        case None =>
      }
    }
    return Ok(stats);
  }

  /** What one directory adds to the total: its counters, or nothing when it cannot be analysed. */
  function Contribution(a: AsyncAnalyzer, fs: Fs, p: Path): FileStats {
    match DirectoryStats(a, fs, p)
    case Ok(s) => s
    case Err(_) => New()
  }

  /** The sum over `paths`, in order, of the directories whose analysis succeeds. */
  function SuccessSum(a: AsyncAnalyzer, fs: Fs, paths: seq<Path>): FileStats
    decreases |paths|
  {
    if paths == [] then New()
    else Add(SuccessSum(a, fs, paths[..|paths| - 1]), Contribution(a, fs, paths[|paths| - 1]))
  }

  /** Summing one more directory adds its contribution. */
  lemma SuccessSumSnoc(a: AsyncAnalyzer, fs: Fs, ps: seq<Path>, p: Path)
    ensures SuccessSum(a, fs, ps + [p]) == Add(SuccessSum(a, fs, ps), Contribution(a, fs, p))
  {
    assert (ps + [p])[..|ps|] == ps;
  }

  lemma SuccessSumPrefix(a: AsyncAnalyzer, fs: Fs, paths: seq<Path>, i: int)
    requires 0 <= i < |paths|
    ensures SuccessSum(a, fs, paths[..i + 1]) == Add(SuccessSum(a, fs, paths[..i]), Contribution(a, fs, paths[i]))
  {
    assert paths[..i + 1][..i] == paths[..i];
  }

  /** The sum over a concatenation is the sum of the sums. */
  lemma {:induction false} SuccessSumAppend(a: AsyncAnalyzer, fs: Fs, xs: seq<Path>, ys: seq<Path>)
    ensures SuccessSum(a, fs, xs + ys) == Add(SuccessSum(a, fs, xs), SuccessSum(a, fs, ys))
    decreases |ys|
  {
    if ys == [] {
      assert xs + ys == xs;
      AddZero(SuccessSum(a, fs, xs));
    } else {
      var front := ys[..|ys| - 1];
      var p := ys[|ys| - 1];
      assert ys == front + [p];
      assert xs + ys == (xs + front) + [p];
      SuccessSumSnoc(a, fs, xs + front, p);
      SuccessSumSnoc(a, fs, front, p);
      SuccessSumAppend(a, fs, xs, front);
      AddAssociates(SuccessSum(a, fs, xs), SuccessSum(a, fs, front), Contribution(a, fs, p));
    }
  }

  /** A directory that cannot be analysed contributes nothing, wherever it appears. */
  lemma FailingDirectorySkipped(a: AsyncAnalyzer, fs: Fs, xs: seq<Path>, p: Path, ys: seq<Path>)
    requires DirectoryStats(a, fs, p).Err?
    ensures SuccessSum(a, fs, xs + [p] + ys) == SuccessSum(a, fs, xs + ys)
  {
    SuccessSumAppend(a, fs, xs + [p], ys);
    SuccessSumAppend(a, fs, xs, [p]);
    SuccessSumAppend(a, fs, xs, ys);
    assert [p][..0] == [];
    AddZero(SuccessSum(a, fs, xs));
  }

  /** `analyze_directories`: the successes summed, the failures skipped; the call itself succeeds. */
  method AnalyzeDirectories(a: AsyncAnalyzer, fs: Fs, paths: seq<Path>) returns (r: Result<FileStats, AnalysisError>)
    ensures r == Ok(SuccessSum(a, fs, paths))
  {
    var total := FileStats(0, 0, 0, 0);
    var i := 0;
    while i < |paths|
      invariant 0 <= i <= |paths|
      invariant total == SuccessSum(a, fs, paths[..i])
    {
      var result := AnalyzeSingleDirectory(a, fs, paths[i]);
      SuccessSumPrefix(a, fs, paths, i);
      match result {
        case Ok(dirStats) =>
          assert Contribution(a, fs, paths[i]) == dirStats;
          total := total.(music := total.music + dirStats.music,
                          videos := total.videos + dirStats.videos,
                          images := total.images + dirStats.images,
                          docs := total.docs + dirStats.docs);
        case Err(_) =>
          assert Contribution(a, fs, paths[i]) == New();
          AddZero(total);
      }
      i := i + 1;
    }
    assert paths[..|paths|] == paths;
    return Ok(total);
  }

  /** The per-file counters of `paths`, in order. */
  function FileStatsAll(a: AsyncAnalyzer, fs: Fs, paths: seq<Path>): (r: seq<FileStats>)
    ensures |r| == |paths|
    decreases |paths|
  {
    if paths == [] then []
    else FileStatsAll(a, fs, paths[..|paths| - 1]) + [FileStatsOf(a, fs, paths[|paths| - 1])]
  }

  /** The `i`th result is the counters of the `i`th path. */
  lemma {:induction false} FileStatsAllAt(a: AsyncAnalyzer, fs: Fs, paths: seq<Path>, i: int)
    requires 0 <= i < |paths|
    ensures FileStatsAll(a, fs, paths)[i] == FileStatsOf(a, fs, paths[i])
    decreases |paths|
  {
    var n := |paths| - 1;
    var front := paths[..n];
    var x := FileStatsOf(a, fs, paths[n]);
    assert FileStatsAll(a, fs, paths) == FileStatsAll(a, fs, front) + [x];
    if i < n {
      FileStatsAllAt(a, fs, front, i);
      assert front[i] == paths[i];
    } else {
      assert i == n;
    }
  }

  lemma FileStatsAllSnoc(a: AsyncAnalyzer, fs: Fs, paths: seq<Path>, i: int)
    requires 0 <= i < |paths|
    ensures FileStatsAll(a, fs, paths[..i + 1]) == FileStatsAll(a, fs, paths[..i]) + [FileStatsOf(a, fs, paths[i])]
  {
    assert paths[..i + 1][..i] == paths[..i];
  }

  /** `batch_analyze_files`: one result per path, in the order of the paths. */
  method BatchAnalyzeFiles(a: AsyncAnalyzer, fs: Fs, paths: seq<Path>) returns (r: Result<seq<FileStats>, AnalysisError>)
    ensures r == Ok(FileStatsAll(a, fs, paths))
  {
    var results: seq<FileStats> := [];
    var i := 0;
    while i < |paths|
      invariant 0 <= i <= |paths|
      invariant results == FileStatsAll(a, fs, paths[..i])
    {
      var result := GetFileStats(a, fs, paths[i]);
      FileStatsAllSnoc(a, fs, paths, i);
      match result {
        case Ok(stats) => results := results + [stats];
      }
      i := i + 1;
    }
    assert paths[..|paths|] == paths;
    return Ok(results);
  }

  /** The name `test.mp3` is a music file under the default lists. */
  lemma Mp3Name()
    ensures FileCategory(DefaultExtensions(), "test.mp3") == Some(Music)
  {
    Mp3Extension();
    Mp3IsMusic();
  }

  lemma Mp3Extension()
    ensures Extension("test.mp3") == Some("mp3")
  {
    assert "test.mp3" == "test" + "." + "mp3";
    ExtensionOfJoin("test", "mp3");
  }

  lemma Mp3IsMusic()
    ensures Classify(DefaultExtensions(), ToLower("mp3")) == Some(Music)
  {
    assert ToLower("mp3") == "mp3";
  }

  /** A file `test.mp3` counts as one music file under the default configuration. */
  lemma Mp3FileExample(a: AsyncAnalyzer, fs: Fs, dir: Path)
    requires a.config == DefaultConfig() && IsFile(fs, dir + ["test.mp3"])
    ensures FileStatsOf(a, fs, dir + ["test.mp3"]) == Unit(Music)
  {
    var p := dir + ["test.mp3"];
    assert Last(p) == "test.mp3";
    Mp3Name();
    assert a.config.fileExtensions == DefaultExtensions();
  }
}
