/**
 * `organize_files` of the mover: the username is validated, the home
 * directory resolved, the destination directories ensured, and then each of
 * the two source roots (Downloads, then Desktop) is scanned, its folders
 * moved by majority type and its files moved by extension, every successful
 * move adding one to the counter of its category.
 *
 * The two worker threads share nothing but four counters that only receive
 * increments, so they are modelled as two passes run one after the other.
 */
module Mover {
  import opened Wrappers
  import opened Text
  import opened Config
  import opened Types
  import opened FileSystem
  import opened Analyzer
  import opened Merge
  import opened User

  // ---------------------------------------------------------------------
  // The shared counters

  /** The four `Arc<Mutex<usize>>` counters the workers increment. */
  class Counters {
    var music: nat
    var videos: nat
    var images: nat
    var docs: nat

    constructor ()
      ensures Stats() == New()
    {
      music, videos, images, docs := 0, 0, 0, 0;
    }

    /** The counters read out into a `FileStats` once the workers are done. */
    function Stats(): FileStats
      reads this
    {
      FileStats(music, videos, images, docs)
    }

    /** `*count += 1` on the counter of category `c`. */
    method Bump(c: Category)
      modifies this
      ensures Stats() == Add(old(Stats()), Unit(c))
    {
      match c
      case Music => music := music + 1;
      case Video => videos := videos + 1;
      case Image => images := images + 1;
      case Docs => docs := docs + 1;
    }
  }

  // ---------------------------------------------------------------------
  // Layout, policy and the record of moves

  /** The six directories of a run, all directly under the user's home. */
  datatype Layout = Layout(downloads: Path, desktop: Path, music: Path,
                           videos: Path, pictures: Path, documents: Path)

  /** The directory a category sends its folders and files to. */
  function TargetDir(l: Layout, c: Category): Path {
    match c
    case Music => l.music
    case Video => l.videos
    case Image => l.pictures
    case Docs => l.documents
  }

  /** The directories made to exist before the workers start, in that order. */
  function EnsuredDirs(l: Layout): seq<Path> {
    [l.music, l.videos, l.pictures, l.documents, l.desktop]
  }

  /** `format!("{}/{}", user_dir_path, get_localized_dir(lang, role))` for each role. */
  function LayoutOf(cfg: Config, lang: string, home: Path): Layout {
    Layout(Join(home, GetLocalizedDir(cfg, lang, "Downloads")),
           Join(home, GetLocalizedDir(cfg, lang, "Desktop")),
           Join(home, GetLocalizedDir(cfg, lang, "Music")),
           Join(home, GetLocalizedDir(cfg, lang, "Videos")),
           Join(home, GetLocalizedDir(cfg, lang, "Pictures")),
           Join(home, GetLocalizedDir(cfg, lang, "Documents")))
  }

  /**
   * What differs between the mover and the older organiser: whether
   * zero-length files are deleted, whether folders are merged into an
   * existing destination, and the extension lists files are matched against.
   */
  datatype Policy = Policy(dropEmptyFiles: bool, mergeFolders: bool, exts: FileExtensions)

  /** The mover's policy: empty files dropped, folders merged, the configuration's lists. */
  function CurrentPolicy(cfg: Config): Policy {
    Policy(true, true, cfg.fileExtensions)
  }

  /** A successful move (the `processed_paths` record) and the category that chose its destination. */
  datatype Move = Move(from: Path, to: Path, category: Category)

  /** The counters after the moves `ms`, starting from zero. */
  function Tally(ms: seq<Move>): FileStats
    decreases |ms|
  {
    if ms == [] then New() else Add(Tally(ms[..|ms| - 1]), Unit(ms[|ms| - 1].category))
  }

  /** The moves of category `c`, in order. */
  function MovesOf(ms: seq<Move>, c: Category): (r: seq<Move>)
    ensures |r| <= |ms|
    ensures forall m :: m in r <==> m in ms && m.category == c
    decreases |ms|
  {
    if ms == [] then []
    else
      var front := MovesOf(ms[..|ms| - 1], c);
      var m := ms[|ms| - 1];
      assert ms == ms[..|ms| - 1] + [m];
      if m.category == c then front + [m] else front
  }

  /** One more successful move adds one to its category's counter. */
  lemma TallySnoc(ms: seq<Move>, m: Move)
    ensures Tally(ms + [m]) == Add(Tally(ms), Unit(m.category))
  {
    assert (ms + [m])[..|ms|] == ms;
  }

  lemma {:induction false} TallyAppend(xs: seq<Move>, ys: seq<Move>)
    ensures Tally(xs + ys) == Add(Tally(xs), Tally(ys))
    decreases |ys|
  {
    if ys == [] {
      assert xs + ys == xs;
      AddZero(Tally(xs));
    } else {
      var front := ys[..|ys| - 1];
      var m := ys[|ys| - 1];
      assert ys == front + [m];
      assert xs + ys == (xs + front) + [m];
      TallySnoc(xs + front, m);
      TallySnoc(front, m);
      TallyAppend(xs, front);
      AddAssociates(Tally(xs), Tally(front), Unit(m.category));
    }
  }

  /** Each counter is the number of successful moves of its category. */
  lemma {:induction false} TallyCounts(ms: seq<Move>, c: Category)
    ensures Count(Tally(ms), c) == |MovesOf(ms, c)|
    decreases |ms|
  {
    if ms != [] {
      TallyCounts(ms[..|ms| - 1], c);
    }
  }

  /** The four counters add up to the number of successful moves. */
  lemma {:induction false} TallyTotal(ms: seq<Move>)
    ensures Total(Tally(ms)) == |ms|
    decreases |ms|
  {
    if ms != [] {
      TallyTotal(ms[..|ms| - 1]);
      AddTotal(Tally(ms[..|ms| - 1]), Unit(ms[|ms| - 1].category));
    }
  }

  // ---------------------------------------------------------------------
  // Scanning a source root

  /** The filesystem and the two work lists while a root's listing is scanned. */
  datatype Scan = Scan(fs: Fs, folders: seq<Path>, files: seq<Path>)

  /**
   * One entry of the root: a directory is queued unless the root is the
   * desktop, a zero-length file is deleted when the policy says so (a failed
   * deletion is ignored), any other file is queued, anything else skipped.
   */
  function ScanEntry(sc: Scan, root: Path, isDesktop: bool, dropEmpty: bool, e: Entry): Scan {
    var p := Join(root, e.name);
    if IsDir(sc.fs, p) then
      if isDesktop then sc else sc.(folders := sc.folders + [p])
    else if IsFile(sc.fs, p) then
      if dropEmpty && Stat(sc.fs, p).value.size == 0 then sc.(fs := RemoveFile(sc.fs, p).fs)
      else sc.(files := sc.files + [p])
    else sc
  }

  function ScanFrom(sc: Scan, root: Path, isDesktop: bool, dropEmpty: bool, es: seq<Entry>): Scan
    decreases |es|
  {
    if es == [] then sc
    else ScanFrom(ScanEntry(sc, root, isDesktop, dropEmpty, es[0]), root, isDesktop, dropEmpty, es[1..])
  }

  /** The scan of a root; a root that cannot be listed gives two empty lists. */
  function ScanRoot(fs: Fs, root: Path, isDesktop: bool, dropEmpty: bool): Scan {
    match ReadDir(fs, root)
    case None => Scan(fs, [], [])
    case Some(es) => ScanFrom(Scan(fs, [], []), root, isDesktop, dropEmpty, es)
  }

  /** The scanning loop of one worker. */
  method ScanRootDir(fs: Fs, root: Path, isDesktop: bool, dropEmpty: bool)
    returns (fs': Fs, folders: seq<Path>, files: seq<Path>)
    ensures Scan(fs', folders, files) == ScanRoot(fs, root, isDesktop, dropEmpty)
  {
    fs', folders, files := fs, [], [];
    var listing := ReadDir(fs, root);
    if listing.None? {
      return;
    }
    var entries := listing.value;
    var i := 0;
    while i < |entries|
      invariant 0 <= i <= |entries|
      invariant ScanFrom(Scan(fs', folders, files), root, isDesktop, dropEmpty, entries[i..]) ==
                ScanRoot(fs, root, isDesktop, dropEmpty)
    {
      var path := Join(root, entries[i].name);
      if IsDir(fs', path) {
        if !isDesktop {
          folders := folders + [path];
        }
      } else if IsFile(fs', path) {
        if dropEmpty && Stat(fs', path).value.size == 0 {
          fs' := RemoveFile(fs', path).fs;
        } else {
          files := files + [path];
        }
      }
      assert entries[i..][1..] == entries[i + 1..];
      i := i + 1;
    }
  }

  // ---------------------------------------------------------------------
  // The folder and file passes

  /** The filesystem and the successful moves so far. */
  datatype Pass = Pass(fs: Fs, moves: seq<Move>)

  /** The tree the listing shows at `p`, which `move_dir_recursive` walks. */
  function Snapshot(fs: Fs, p: Path): Node {
    match Lookup(fs, p)
    case Some(n) => n
    case None => Dir([])
  }

  /** The folder move: `move_dir_recursive` for the mover, a single rename for the older organiser. */
  function MoveFolder(fs: Fs, policy: Policy, folder: Path, target: Path): Outcome {
    if policy.mergeFolders then MoveTree(fs, folder, target, Snapshot(fs, folder))
    else Rename(fs, folder, target)
  }

  /**
   * One queued folder: analysed over its whole tree, and moved into the
   * directory of its majority category under its own name; a folder with no
   * recognised file stays. A failed move is not recorded, but what it did
   * before failing stays done.
   */
  function FolderStep(p: Pass, l: Layout, policy: Policy, folder: Path): Pass {
    match Majority(WalkStats(DefaultExtensions(), Walk(p.fs, folder)))
    case None => p
    case Some(c) =>
      if folder == [] then p
      else
        var target := Join(TargetDir(l, c), Last(folder));
        var o := MoveFolder(p.fs, policy, folder, target);
        Pass(o.fs, if o.ok then p.moves + [Move(folder, target, c)] else p.moves)
  }

  function FolderPass(p: Pass, l: Layout, policy: Policy, folders: seq<Path>): Pass
    decreases |folders|
  {
    if folders == [] then p
    else FolderPass(FolderStep(p, l, policy, folders[0]), l, policy, folders[1..])
  }

  /**
   * One queued file: its lower-cased extension picks the first of the
   * music, video, image and document lists that holds it, and the file is
   * renamed into that directory under its own name; a file without a
   * recognised extension stays.
   */
  function FileStep(p: Pass, l: Layout, exts: FileExtensions, file: Path): Pass {
    if file == [] then p
    else match FileCategory(exts, Last(file))
      case None => p
      case Some(c) =>
        var target := Join(TargetDir(l, c), Last(file));
        var o := Rename(p.fs, file, target);
        Pass(o.fs, if o.ok then p.moves + [Move(file, target, c)] else p.moves)
  }

  function FilePass(p: Pass, l: Layout, exts: FileExtensions, files: seq<Path>): Pass
    decreases |files|
  {
    if files == [] then p
    else FilePass(FileStep(p, l, exts, files[0]), l, exts, files[1..])
  }

  /** One worker: the scan, then every queued folder, then every queued file. */
  function RootPass(fs: Fs, root: Path, isDesktop: bool, l: Layout, policy: Policy): Pass {
    var sc := ScanRoot(fs, root, isDesktop, policy.dropEmptyFiles);
    var folders := FolderPass(Pass(sc.fs, []), l, policy, sc.folders);
    var files := FilePass(Pass(folders.fs, []), l, policy.exts, sc.files);
    Pass(files.fs, folders.moves + files.moves)
  }

  /** The worker's folder loop. */
  method MoveFolders(fs: Fs, l: Layout, policy: Policy, folders: seq<Path>, counters: Counters)
    returns (fs': Fs, moves: seq<Move>)
    modifies counters
    ensures Pass(fs', moves) == FolderPass(Pass(fs, []), l, policy, folders)
    ensures counters.Stats() == Add(old(counters.Stats()), Tally(moves))
  {
    fs', moves := fs, [];
    AddZero(counters.Stats());
    var i := 0;
    while i < |folders|
      invariant 0 <= i <= |folders|
      invariant FolderPass(Pass(fs', moves), l, policy, folders[i..]) ==
                FolderPass(Pass(fs, []), l, policy, folders)
      invariant counters.Stats() == Add(old(counters.Stats()), Tally(moves))
    {
      var folder := folders[i];
      ghost var before := Pass(fs', moves);
      var stats := AnalyzeFolder(fs', folder);
      var majority := GetMajorityType(stats);
      if majority.Some? && folder != [] {
        var c := majority.value;
        var target := Join(TargetDir(l, c), Last(folder));
        var o: Outcome;
        if policy.mergeFolders {
          o := MoveDirRecursive(fs', folder, target, Snapshot(fs', folder));
        } else {
          o := Rename(fs', folder, target);
        }
        fs' := o.fs;
        if o.ok {
          var m := Move(folder, target, c);
          TallySnoc(moves, m);
          AddAssociates(old(counters.Stats()), Tally(moves), Unit(c));
          moves := moves + [m];
          counters.Bump(c);
        }
      }
      assert Pass(fs', moves) == FolderStep(before, l, policy, folder);
      assert folders[i..][1..] == folders[i + 1..];
      i := i + 1;
    }
  }

  /** The worker's file loop. */
  method MoveFiles(fs: Fs, l: Layout, exts: FileExtensions, files: seq<Path>, counters: Counters)
    returns (fs': Fs, moves: seq<Move>)
    modifies counters
    ensures Pass(fs', moves) == FilePass(Pass(fs, []), l, exts, files)
    ensures counters.Stats() == Add(old(counters.Stats()), Tally(moves))
  {
    fs', moves := fs, [];
    AddZero(counters.Stats());
    var i := 0;
    while i < |files|
      invariant 0 <= i <= |files|
      invariant FilePass(Pass(fs', moves), l, exts, files[i..]) == FilePass(Pass(fs, []), l, exts, files)
      invariant counters.Stats() == Add(old(counters.Stats()), Tally(moves))
    {
      var file := files[i];
      if file != [] {
        var category := FileCategory(exts, Last(file));
        if category.Some? {
          var c := category.value;
          var target := Join(TargetDir(l, c), Last(file));
          var o := Rename(fs', file, target);
          fs' := o.fs;
          if o.ok {
            var m := Move(file, target, c);
            TallySnoc(moves, m);
            AddAssociates(old(counters.Stats()), Tally(moves), Unit(c));
            moves := moves + [m];
            counters.Bump(c);
          }
        }
      }
      assert files[i..][1..] == files[i + 1..];
      i := i + 1;
    }
  }

  /** One worker, from its root's listing to its last file. */
  method ProcessRoot(fs: Fs, root: Path, isDesktop: bool, l: Layout, policy: Policy, counters: Counters)
    returns (fs': Fs, moves: seq<Move>)
    modifies counters
    ensures Pass(fs', moves) == RootPass(fs, root, isDesktop, l, policy)
    ensures counters.Stats() == Add(old(counters.Stats()), Tally(moves))
  {
    var scanned, folders, files := ScanRootDir(fs, root, isDesktop, policy.dropEmptyFiles);
    var afterFolders, folderMoves := MoveFolders(scanned, l, policy, folders, counters);
    var fileMoves;
    fs', fileMoves := MoveFiles(afterFolders, l, policy.exts, files, counters);
    moves := folderMoves + fileMoves;
    TallyAppend(folderMoves, fileMoves);
    AddAssociates(old(counters.Stats()), Tally(folderMoves), Tally(fileMoves));
  }

  // ---------------------------------------------------------------------
  // A whole run

  /** Each listed directory is created with `create_dir_all` unless it exists; failures are ignored. */
  function EnsureDirs(fs: Fs, dirs: seq<Path>): Fs
    decreases |dirs|
  {
    if dirs == [] then fs
    else EnsureDirs(if Exists(fs, dirs[0]) then fs else CreateDirAll(fs, dirs[0]).fs, dirs[1..])
  }

  /** The loop that ensures the destination directories. */
  method EnsureDirectories(fs: Fs, dirs: seq<Path>) returns (fs': Fs)
    ensures fs' == EnsureDirs(fs, dirs)
  {
    fs' := fs;
    for i := 0 to |dirs|
      invariant EnsureDirs(fs', dirs[i..]) == EnsureDirs(fs, dirs)
    {
      if !Exists(fs', dirs[i]) {
        fs' := CreateDirAll(fs', dirs[i]).fs;
      }
      assert dirs[i..][1..] == dirs[i + 1..];
    }
    assert dirs[|dirs|..] == [];
  }

  /** The outcome of a run: the moves made or the error message, and the filesystem left behind. */
  datatype Run = Run(result: Result<seq<Move>, string>, fs: Fs)

  /** The directories ensured, then the Downloads worker, then the Desktop worker. */
  function Relocate(fs: Fs, l: Layout, downloadsIsDesktop: bool, desktopIsDesktop: bool, policy: Policy): Run {
    var ensured := EnsureDirs(fs, EnsuredDirs(l));
    var first := RootPass(ensured, l.downloads, downloadsIsDesktop, l, policy);
    var second := RootPass(first.fs, l.desktop, desktopIsDesktop, l, policy);
    Run(Ok(first.moves + second.moves), second.fs)
  }

  /** `dir.contains(get_localized_dir(lang, "Desktop"))`: a substring test on the whole path. */
  predicate IsDesktopRoot(cfg: Config, lang: string, root: Path) {
    Contains(Render(root), GetLocalizedDir(cfg, lang, "Desktop"))
  }

  /** `organize_files(username, lang, config)` on the filesystem `fs` of a host running `platform`. */
  function Organize(fs: Fs, platform: Platform, username: string, lang: string, cfg: Config): Run {
    var name := Trim(username);
    if name == "" then Run(Err(GetErrorMessage(cfg, lang, "empty_username", name)), fs)
    else match UserHome(fs, platform, name)
      case None => Run(Err(GetErrorMessage(cfg, lang, "user_not_found", name)), fs)
      case Some(home) =>
        var l := LayoutOf(cfg, lang, home);
        Relocate(fs, l, IsDesktopRoot(cfg, lang, l.downloads), IsDesktopRoot(cfg, lang, l.desktop),
                 CurrentPolicy(cfg))
  }

  /** What a run returns: the four counters, or the error message. */
  function Returned(r: Result<seq<Move>, string>): Result<FileStats, string> {
    match r
    case Ok(ms) => Ok(Tally(ms))
    case Err(e) => Err(e)
  }

  /** Everything after the home directory is known: the directories, both workers, the counters. */
  method RelocateAll(fs: Fs, l: Layout, downloadsIsDesktop: bool, desktopIsDesktop: bool, policy: Policy)
    returns (stats: FileStats, fs': Fs)
    ensures Ok(stats) == Returned(Relocate(fs, l, downloadsIsDesktop, desktopIsDesktop, policy).result)
    ensures fs' == Relocate(fs, l, downloadsIsDesktop, desktopIsDesktop, policy).fs
  {
    var counters := new Counters();
    var ensured := EnsureDirectories(fs, EnsuredDirs(l));
    var afterDownloads, first := ProcessRoot(ensured, l.downloads, downloadsIsDesktop, l, policy, counters);
    var second;
    fs', second := ProcessRoot(afterDownloads, l.desktop, desktopIsDesktop, l, policy, counters);
    TallyAppend(first, second);
    AddZero(Tally(first));
    stats := counters.Stats();
  }

  /** `organize_files`. */
  method OrganizeFiles(fs: Fs, platform: Platform, username: string, lang: string, cfg: Config)
    returns (result: Result<FileStats, string>, fs': Fs)
    ensures result == Returned(Organize(fs, platform, username, lang, cfg).result)
    ensures fs' == Organize(fs, platform, username, lang, cfg).fs
  {
    var name := Trim(username);
    if name == "" {
      return Err(GetErrorMessage(cfg, lang, "empty_username", name)), fs;
    }
    var home := UserHome(fs, platform, name);
    if home.None? {
      return Err(GetErrorMessage(cfg, lang, "user_not_found", name)), fs;
    }
    var l := LayoutOf(cfg, lang, home.value);
    var stats;
    stats, fs' := RelocateAll(fs, l, IsDesktopRoot(cfg, lang, l.downloads), IsDesktopRoot(cfg, lang, l.desktop),
                              CurrentPolicy(cfg));
    result := Ok(stats);
  }

  // ---------------------------------------------------------------------
  // Properties of a run

  /** A username that is empty once trimmed is refused before the filesystem is looked at. */
  lemma EmptyUsernameRejected(fs: Fs, platform: Platform, username: string, lang: string, cfg: Config)
    requires Trim(username) == ""
    ensures Organize(fs, platform, username, lang, cfg) ==
      Run(Err(GetErrorMessage(cfg, lang, "empty_username", "")), fs)
  {
  }

  /** With the default configuration, the refusal is the fixed English or Spanish sentence. */
  lemma DefaultEmptyUsernameRejected(fs: Fs, platform: Platform, username: string, lang: string)
    requires Trim(username) == ""
    ensures Organize(fs, platform, username, lang, DefaultConfig()).fs == fs
    ensures Organize(fs, platform, username, lang, DefaultConfig()).result ==
      Err(if lang == "es" then SpanishEmptyUsername else EnglishEmptyUsername)
  {
    DefaultEmptyUsernameMessage(lang, "");
  }

  /** A user without a home directory is refused with the `user_not_found` message for the trimmed name, and nothing changes. */
  lemma UnknownUserRejected(fs: Fs, platform: Platform, username: string, lang: string, cfg: Config)
    requires Trim(username) != "" && !Exists(fs, Join(UsersRoot(platform), Trim(username)))
    ensures Organize(fs, platform, username, lang, cfg) ==
      Run(Err(GetErrorMessage(cfg, lang, "user_not_found", Trim(username))), fs)
  {
  }

  /** With the default configuration that message names the user; outside Spanish it is the English sentence. */
  lemma DefaultUnknownUserMessage(fs: Fs, platform: Platform, username: string, lang: string)
    requires Trim(username) != "" && !Exists(fs, Join(UsersRoot(platform), Trim(username)))
    ensures Organize(fs, platform, username, lang, DefaultConfig()).fs == fs
    ensures Organize(fs, platform, username, lang, DefaultConfig()).result.Err?
    ensures Contains(Organize(fs, platform, username, lang, DefaultConfig()).result.error, Trim(username))
    ensures lang != "es" ==>
      (Organize(fs, platform, username, lang, DefaultConfig()).result ==
       Err("User " + Trim(username) + (" not found." + EnglishPlease)))
  {
    var name := Trim(username);
    UnknownUserRejected(fs, platform, username, lang, DefaultConfig());
    UserNotFoundNamesUser(lang, name);
    DefaultUserNotFoundMessage(lang, name);
  }

  /**
   * Ensuring directories changes no file, keeps every existing path, and
   * only creates paths on the way to one of the listed directories.
   */
  lemma {:induction false} EnsureDirsFrame(fs: Fs, dirs: seq<Path>, q: Path)
    ensures FileAt(EnsureDirs(fs, dirs), q) == FileAt(fs, q)
    ensures Lookup(fs, q).Some? ==> Lookup(EnsureDirs(fs, dirs), q).Some?
    ensures Lookup(EnsureDirs(fs, dirs), q).Some? && Lookup(fs, q).None? ==>
      exists k :: 0 <= k < |dirs| && q <= dirs[k]
    ensures EnsureDirs(fs, dirs).denied == fs.denied
    decreases |dirs|
  {
    if dirs != [] {
      var mid := if Exists(fs, dirs[0]) then fs else CreateDirAll(fs, dirs[0]).fs;
      CreateDirAllFrame(fs, dirs[0], q);
      EnsureDirsFrame(mid, dirs[1..], q);
      if Lookup(EnsureDirs(fs, dirs), q).Some? && Lookup(fs, q).None? {
        if Lookup(mid, q).Some? {
          assert q <= dirs[0];
        } else {
          var k :| 0 <= k < |dirs[1..]| && q <= dirs[1..][k];
          assert q <= dirs[k + 1];
        }
      }
    }
  }

  /** Ensuring a list of directories is ensuring its first `k` and then the rest. */
  lemma {:induction false} EnsureDirsSplit(fs: Fs, dirs: seq<Path>, k: nat)
    requires k <= |dirs|
    ensures EnsureDirs(fs, dirs) == EnsureDirs(EnsureDirs(fs, dirs[..k]), dirs[k..])
    decreases k
  {
    if k == 0 {
      assert dirs[k..] == dirs;
    } else {
      var mid := if Exists(fs, dirs[0]) then fs else CreateDirAll(fs, dirs[0]).fs;
      EnsureDirsSplit(mid, dirs[1..], k - 1);
      assert dirs[1..][..k - 1] == dirs[..k][1..];
      assert dirs[1..][k - 1..] == dirs[k..];
    }
  }

  /**
   * Every listed directory exists after the run, unless `create_dir_all`
   * failed on it at its turn; one that was a directory then stays one.
   */
  lemma EnsureDirsExist(fs: Fs, dirs: seq<Path>, k: nat)
    requires k < |dirs| && dirs[k] != []
    requires var before := EnsureDirs(fs, dirs[..k]);
      Exists(before, dirs[k]) || CreateDirAll(before, dirs[k]).ok
    ensures Exists(EnsureDirs(fs, dirs), dirs[k])
    ensures IsDir(EnsureDirs(fs, dirs[..k + 1]), dirs[k]) ==> IsDir(EnsureDirs(fs, dirs), dirs[k])
  {
    var before := EnsureDirs(fs, dirs[..k]);
    var after := EnsureDirs(fs, dirs[..k + 1]);
    EnsureDirsSplit(fs, dirs, k);
    EnsureDirsSplit(fs, dirs, k + 1);
    EnsureDirsSplit(fs, dirs[..k + 1], k);
    assert dirs[..k + 1][..k] == dirs[..k];
    assert dirs[..k + 1][k..] == [dirs[k]];
    assert after == if Exists(before, dirs[k]) then before else CreateDirAll(before, dirs[k]).fs;
    assert Exists(after, dirs[k]);
    EnsureDirsFrame(after, dirs[k + 1..], dirs[k]);
  }

  /** A path one level below `home` lies on the way to `Join(home, m)` only if it is `Join(home, m)`. */
  lemma ChildOnlyBelowItself(home: Path, n: string, m: string)
    requires n != "" && n != m
    ensures !(home + [n] <= Join(home, m))
  {
    if m != "" {
      assert (home + [m])[|home|] == m;
    }
  }

  /**
   * The Downloads directory is not among the ensured ones: when its
   * localized name is not empty and differs from the five others, a run
   * that finds no Downloads directory does not create one.
   */
  lemma DownloadsNotCreated(fs: Fs, cfg: Config, lang: string, home: Path)
    requires var n := GetLocalizedDir(cfg, lang, "Downloads");
      n != "" && n != GetLocalizedDir(cfg, lang, "Music") && n != GetLocalizedDir(cfg, lang, "Videos") &&
      n != GetLocalizedDir(cfg, lang, "Pictures") && n != GetLocalizedDir(cfg, lang, "Documents") &&
      n != GetLocalizedDir(cfg, lang, "Desktop")
    requires Lookup(fs, LayoutOf(cfg, lang, home).downloads).None?
    ensures Lookup(EnsureDirs(fs, EnsuredDirs(LayoutOf(cfg, lang, home))), LayoutOf(cfg, lang, home).downloads).None?
  {
    var l := LayoutOf(cfg, lang, home);
    var n := GetLocalizedDir(cfg, lang, "Downloads");
    var dirs := EnsuredDirs(l);
    ChildOnlyBelowItself(home, n, GetLocalizedDir(cfg, lang, "Music"));
    ChildOnlyBelowItself(home, n, GetLocalizedDir(cfg, lang, "Videos"));
    ChildOnlyBelowItself(home, n, GetLocalizedDir(cfg, lang, "Pictures"));
    ChildOnlyBelowItself(home, n, GetLocalizedDir(cfg, lang, "Documents"));
    ChildOnlyBelowItself(home, n, GetLocalizedDir(cfg, lang, "Desktop"));
    assert forall k :: 0 <= k < |dirs| ==> !(l.downloads <= dirs[k]);
    EnsureDirsFrame(fs, dirs, l.downloads);
  }

  /** With the default tables, in every language, the Downloads directory is never created. */
  lemma DefaultDownloadsNotCreated(fs: Fs, lang: string, home: Path)
    requires Lookup(fs, LayoutOf(DefaultConfig(), lang, home).downloads).None?
    ensures Lookup(EnsureDirs(fs, EnsuredDirs(LayoutOf(DefaultConfig(), lang, home))),
                   LayoutOf(DefaultConfig(), lang, home).downloads).None?
  {
    if lang == "en" {
      EnglishDirsAreRoleNames("Downloads");
      EnglishDirsAreRoleNames("Music");
      EnglishDirsAreRoleNames("Videos");
      EnglishDirsAreRoleNames("Pictures");
      EnglishDirsAreRoleNames("Documents");
      EnglishDirsAreRoleNames("Desktop");
    } else if lang == "es" {
      SpanishDirs();
    } else {
      UnknownLanguageIsEnglish(lang, "Downloads");
      UnknownLanguageIsEnglish(lang, "Music");
      UnknownLanguageIsEnglish(lang, "Videos");
      UnknownLanguageIsEnglish(lang, "Pictures");
      UnknownLanguageIsEnglish(lang, "Documents");
      UnknownLanguageIsEnglish(lang, "Desktop");
    }
    DownloadsNotCreated(fs, DefaultConfig(), lang, home);
  }

  // ---------------------------------------------------------------------
  // Properties of the scan

  /** On the desktop no folder is ever queued. */
  lemma {:induction false} DesktopQueuesNoFolders(sc: Scan, root: Path, dropEmpty: bool, es: seq<Entry>)
    ensures ScanFrom(sc, root, true, dropEmpty, es).folders == sc.folders
    decreases |es|
  {
    if es != [] {
      DesktopQueuesNoFolders(ScanEntry(sc, root, true, dropEmpty, es[0]), root, dropEmpty, es[1..]);
    }
  }

  /** Without dropping empty files the scan only reads. */
  lemma {:induction false} ScanWithoutDropReads(sc: Scan, root: Path, isDesktop: bool, es: seq<Entry>)
    ensures ScanFrom(sc, root, isDesktop, false, es).fs == sc.fs
    decreases |es|
  {
    if es != [] {
      ScanWithoutDropReads(ScanEntry(sc, root, isDesktop, false, es[0]), root, isDesktop, es[1..]);
    }
  }

  /** `p` is queued nowhere, and is either gone or an empty file the scan may remove. */
  ghost predicate Pending(sc: Scan, p: Path) {
    && p !in sc.files && p !in sc.folders
    && (Lookup(sc.fs, p) == None || (Lookup(sc.fs, p) == Some(File(0)) && p !in sc.fs.denied))
  }

  lemma PendingStep(sc: Scan, root: Path, isDesktop: bool, e: Entry, p: Path)
    requires p != [] && Pending(sc, p)
    ensures var next := ScanEntry(sc, root, isDesktop, true, e);
      && Pending(next, p)
      && (Lookup(sc.fs, p) == None ==> Lookup(next.fs, p) == None)
      && (Join(root, e.name) == p ==> Lookup(next.fs, p) == None)
  {
    var q := Join(root, e.name);
    if !IsDir(sc.fs, q) && IsFile(sc.fs, q) && Stat(sc.fs, q).value.size == 0 && RemoveFile(sc.fs, q).ok {
      RemoveEffect(sc.fs, q, p);
      if q != p {
        if Lookup(sc.fs, p) == None {
          RemoveKeepsAbsent(sc.fs, q, p);
        } else {
          RemoveKeepsOtherFile(sc.fs, q, p);
        }
      }
    }
  }

  lemma {:induction false} PendingScan(sc: Scan, root: Path, isDesktop: bool, es: seq<Entry>, p: Path)
    requires p != [] && Pending(sc, p)
    ensures var r := ScanFrom(sc, root, isDesktop, true, es);
      && Pending(r, p)
      && (Lookup(sc.fs, p) == None ==> Lookup(r.fs, p) == None)
      && ((exists k :: 0 <= k < |es| && Join(root, es[k].name) == p) ==> Lookup(r.fs, p) == None)
    decreases |es|
  {
    if es != [] {
      var next := ScanEntry(sc, root, isDesktop, true, es[0]);
      PendingStep(sc, root, isDesktop, es[0], p);
      PendingScan(next, root, isDesktop, es[1..], p);
      if k :| 0 <= k < |es| && Join(root, es[k].name) == p {
        if k > 0 {
          assert es[1..][k - 1] == es[k];
        }
      }
    }
  }

  /** A zero-length file directly under the root is deleted by the scan and queued nowhere. */
  lemma EmptyFileDropped(fs: Fs, root: Path, isDesktop: bool, k: int)
    requires ReadDir(fs, root).Some? && 0 <= k < |ReadDir(fs, root).value|
    requires var p := Join(root, ReadDir(fs, root).value[k].name);
      Lookup(fs, p) == Some(File(0)) && p !in fs.denied
    ensures var p := Join(root, ReadDir(fs, root).value[k].name);
      var sc := ScanRoot(fs, root, isDesktop, true);
      Lookup(sc.fs, p) == None && p !in sc.files && p !in sc.folders
  {
    var es := ReadDir(fs, root).value;
    var p := Join(root, es[k].name);
    assert p != [] by {
      assert Lookup(fs, []) != Some(File(0));
    }
    PendingScan(Scan(fs, [], []), root, isDesktop, es, p);
  }

  /** Every queued file is a file of the filesystem the scan started from, and not an empty one when those are dropped. */
  lemma {:induction false} ScanKeepsFiles(fs: Fs, sc: Scan, root: Path, isDesktop: bool, dropEmpty: bool, es: seq<Entry>)
    requires forall q :: FileAt(sc.fs, q).Some? ==> FileAt(sc.fs, q) == FileAt(fs, q)
    requires forall p :: p in sc.files ==> FileAt(fs, p).Some? && (dropEmpty ==> FileAt(fs, p) != Some(0))
    ensures var r := ScanFrom(sc, root, isDesktop, dropEmpty, es);
      && (forall q :: FileAt(r.fs, q).Some? ==> FileAt(r.fs, q) == FileAt(fs, q))
      && (forall p :: p in r.files ==> FileAt(fs, p).Some? && (dropEmpty ==> FileAt(fs, p) != Some(0)))
    decreases |es|
  {
    if es != [] {
      var q := Join(root, es[0].name);
      var next := ScanEntry(sc, root, isDesktop, dropEmpty, es[0]);
      if RemoveFile(sc.fs, q).ok {
        forall q' ensures FileAt(Delete(sc.fs, q), q').Some? ==> FileAt(Delete(sc.fs, q), q') == FileAt(sc.fs, q') {
          RemoveKeepsFiles(sc.fs, q, q');
        }
      }
      ScanKeepsFiles(fs, next, root, isDesktop, dropEmpty, es[1..]);
    }
  }

  lemma ScannedFiles(fs: Fs, root: Path, isDesktop: bool, dropEmpty: bool)
    ensures forall p :: p in ScanRoot(fs, root, isDesktop, dropEmpty).files ==>
      FileAt(fs, p).Some? && (dropEmpty ==> FileAt(fs, p) != Some(0))
  {
    if ReadDir(fs, root).Some? {
      ScanKeepsFiles(fs, Scan(fs, [], []), root, isDesktop, dropEmpty, ReadDir(fs, root).value);
    }
  }

  // ---------------------------------------------------------------------
  // Properties of the passes

  /** A move into its category's directory under the name it had. */
  ghost predicate Placed(l: Layout, m: Move) {
    m.from != [] && m.to == Join(TargetDir(l, m.category), Last(m.from))
  }

  /** Every move added to `before` takes one of `from` to its place. */
  ghost predicate MovesFrom(before: seq<Move>, after: seq<Move>, l: Layout, from: seq<Path>) {
    forall m :: m in after ==> m in before || (m.from in from && Placed(l, m))
  }

  /** As `MovesFrom`, and each added move's category is the one its extension picks. */
  ghost predicate FileMovesFrom(before: seq<Move>, after: seq<Move>, l: Layout, exts: FileExtensions, from: seq<Path>) {
    forall m :: m in after ==>
      m in before || (m.from in from && Placed(l, m) && FileCategory(exts, Last(m.from)) == Some(m.category))
  }

  lemma FolderStepMoves(p: Pass, l: Layout, policy: Policy, folder: Path)
    ensures MovesFrom(p.moves, FolderStep(p, l, policy, folder).moves, l, [folder])
  {
  }

  /** Every folder move takes a queued folder into its category's directory under its own name. */
  lemma {:induction false} FolderPassMoves(p: Pass, l: Layout, policy: Policy, folders: seq<Path>)
    ensures MovesFrom(p.moves, FolderPass(p, l, policy, folders).moves, l, folders)
    decreases |folders|
  {
    if folders != [] {
      var next := FolderStep(p, l, policy, folders[0]);
      FolderStepMoves(p, l, policy, folders[0]);
      FolderPassMoves(next, l, policy, folders[1..]);
      assert FolderPass(p, l, policy, folders) == FolderPass(next, l, policy, folders[1..]);
      forall m | m in FolderPass(next, l, policy, folders[1..]).moves
        ensures m in p.moves || (m.from in folders && Placed(l, m))
      {
        if m.from in folders[1..] {
          assert m.from in folders;
        }
      }
    }
  }

  lemma FileStepMoves(p: Pass, l: Layout, exts: FileExtensions, file: Path)
    ensures FileMovesFrom(p.moves, FileStep(p, l, exts, file).moves, l, exts, [file])
  {
  }

  /**
   * Every file move takes a queued file whose extension is recognised into
   * the directory of that extension's category under its own name: the
   * match that picks the directory also picks the counter.
   */
  lemma {:induction false} FilePassMoves(p: Pass, l: Layout, exts: FileExtensions, files: seq<Path>)
    ensures FileMovesFrom(p.moves, FilePass(p, l, exts, files).moves, l, exts, files)
    decreases |files|
  {
    if files != [] {
      var next := FileStep(p, l, exts, files[0]);
      FileStepMoves(p, l, exts, files[0]);
      FilePassMoves(next, l, exts, files[1..]);
      assert FilePass(p, l, exts, files) == FilePass(next, l, exts, files[1..]);
      forall m | m in FilePass(next, l, exts, files[1..]).moves
        ensures m in p.moves || (m.from in files && Placed(l, m) && FileCategory(exts, Last(m.from)) == Some(m.category))
      {
        if m.from in files[1..] {
          assert m.from in files;
        }
      }
    }
  }

  /**
   * What one worker moves: queued folders, and queued files by extension,
   * each into its category's directory under its own name; on the desktop
   * only files.
   */
  lemma RootPassMoves(fs: Fs, root: Path, isDesktop: bool, l: Layout, policy: Policy)
    ensures var sc := ScanRoot(fs, root, isDesktop, policy.dropEmptyFiles);
      forall m :: m in RootPass(fs, root, isDesktop, l, policy).moves ==>
        && Placed(l, m)
        && (m.from in sc.folders || m.from in sc.files)
        && (!(m.from in sc.folders) ==> FileCategory(policy.exts, Last(m.from)) == Some(m.category))
    ensures isDesktop ==>
      forall m :: m in RootPass(fs, root, isDesktop, l, policy).moves ==>
        m.from in ScanRoot(fs, root, isDesktop, policy.dropEmptyFiles).files &&
        FileCategory(policy.exts, Last(m.from)) == Some(m.category)
  {
    var sc := ScanRoot(fs, root, isDesktop, policy.dropEmptyFiles);
    var folders := FolderPass(Pass(sc.fs, []), l, policy, sc.folders);
    var files := FilePass(Pass(folders.fs, []), l, policy.exts, sc.files);
    assert RootPass(fs, root, isDesktop, l, policy).moves == folders.moves + files.moves;
    FolderPassMoves(Pass(sc.fs, []), l, policy, sc.folders);
    FilePassMoves(Pass(folders.fs, []), l, policy.exts, sc.files);
    if isDesktop && ReadDir(fs, root).Some? {
      DesktopQueuesNoFolders(Scan(fs, [], []), root, policy.dropEmptyFiles, ReadDir(fs, root).value);
    }
  }

  /** A zero-length file directly under a root is never moved when empty files are dropped. */
  lemma EmptyFileNeverMoved(fs: Fs, root: Path, isDesktop: bool, l: Layout, policy: Policy, k: int)
    requires policy.dropEmptyFiles
    requires ReadDir(fs, root).Some? && 0 <= k < |ReadDir(fs, root).value|
    requires var p := Join(root, ReadDir(fs, root).value[k].name);
      Lookup(fs, p) == Some(File(0)) && p !in fs.denied
    ensures forall m :: m in RootPass(fs, root, isDesktop, l, policy).moves ==>
      m.from != Join(root, ReadDir(fs, root).value[k].name)
  {
    EmptyFileDropped(fs, root, isDesktop, k);
    RootPassMoves(fs, root, isDesktop, l, policy);
  }

  // ---------------------------------------------------------------------
  // The desktop test

  /** The desktop root always passes the desktop test. */
  lemma DesktopRootIsDesktop(cfg: Config, lang: string, home: Path)
    ensures IsDesktopRoot(cfg, lang, LayoutOf(cfg, lang, home).desktop)
  {
    var n := GetLocalizedDir(cfg, lang, "Desktop");
    if n != "" {
      RenderEndsWith(home, n);
    }
  }

  /** A name found in a path's rendering is found in the rendering of any path below it. */
  lemma ContainedBelow(home: Path, n: string, d: string)
    requires Contains(Render(home), d)
    ensures Contains(Render(Join(home, n)), d)
  {
    if n != "" {
      var h := Render(home);
      RenderEndsWith(home, n);
      ContainsWithin("", h, "/" + n, d);
      assert "" + h + ("/" + n) == h + "/" + n;
    }
  }

  /**
   * The test is on the whole path, so when the home directory's own path
   * holds the Desktop name (a user called "MyDesktop", say), the Downloads
   * root passes it too and its folders are not moved.
   */
  lemma DesktopNameInHome(cfg: Config, lang: string, home: Path)
    requires Contains(Render(home), GetLocalizedDir(cfg, lang, "Desktop"))
    ensures IsDesktopRoot(cfg, lang, LayoutOf(cfg, lang, home).downloads)
  {
    ContainedBelow(home, GetLocalizedDir(cfg, lang, "Downloads"), GetLocalizedDir(cfg, lang, "Desktop"));
  }

  // ---------------------------------------------------------------------
  // Properties of a whole run

  /**
   * Every move of a run lands in its category's directory under its own
   * name, and none of the Desktop worker's moves is a folder's when that
   * root passes the desktop test.
   */
  lemma RelocateMoves(fs: Fs, l: Layout, downloadsIsDesktop: bool, desktopIsDesktop: bool, policy: Policy)
    ensures var ensured := EnsureDirs(fs, EnsuredDirs(l));
      var first := RootPass(ensured, l.downloads, downloadsIsDesktop, l, policy);
      var second := RootPass(first.fs, l.desktop, desktopIsDesktop, l, policy);
      && Relocate(fs, l, downloadsIsDesktop, desktopIsDesktop, policy).result == Ok(first.moves + second.moves)
      && (forall m :: m in first.moves + second.moves ==> Placed(l, m))
      && (desktopIsDesktop ==> forall m :: m in second.moves ==>
            m.from in ScanRoot(first.fs, l.desktop, true, policy.dropEmptyFiles).files &&
            Placed(l, m) && FileCategory(policy.exts, Last(m.from)) == Some(m.category))
  {
    var ensured := EnsureDirs(fs, EnsuredDirs(l));
    var first := RootPass(ensured, l.downloads, downloadsIsDesktop, l, policy);
    RootPassMoves(ensured, l.downloads, downloadsIsDesktop, l, policy);
    RootPassMoves(first.fs, l.desktop, desktopIsDesktop, l, policy);
  }

  /** The counters a successful run returns count its moves, category by category. */
  lemma OrganizeCounts(fs: Fs, platform: Platform, username: string, lang: string, cfg: Config, c: Category)
    requires Organize(fs, platform, username, lang, cfg).result.Ok?
    ensures var ms := Organize(fs, platform, username, lang, cfg).result.value;
      var stats := Returned(Organize(fs, platform, username, lang, cfg).result).value;
      Count(stats, c) == |MovesOf(ms, c)| && Total(stats) == |ms|
  {
    var ms := Organize(fs, platform, username, lang, cfg).result.value;
    TallyCounts(ms, c);
    TallyTotal(ms);
  }

  /**
   * A run of the mover for a known user is the relocation under the
   * current policy in which the Desktop root always passes the desktop
   * test, so `RelocateMoves` gives its Desktop worker only file moves.
   */
  lemma OrganizeRelocates(fs: Fs, platform: Platform, username: string, lang: string, cfg: Config)
    requires Trim(username) != "" && UserHome(fs, platform, Trim(username)).Some?
    ensures var l := LayoutOf(cfg, lang, UserHome(fs, platform, Trim(username)).value);
      Organize(fs, platform, username, lang, cfg) ==
        Relocate(fs, l, IsDesktopRoot(cfg, lang, l.downloads), true, CurrentPolicy(cfg))
  {
    DesktopRootIsDesktop(cfg, lang, UserHome(fs, platform, Trim(username)).value);
  }
}
