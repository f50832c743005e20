/**
 * The older single-platform organiser (`organize_files(username)` in
 * `organizer.rs`): Windows paths under `C:/Users`, English directory names,
 * fixed extension lists, plain renames and no cleanup of empty files. It
 * runs the same two-worker pass as the mover under a different policy.
 */
module LegacyOrganizer {
  import opened Wrappers
  import opened Text
  import opened Config
  import opened Types
  import opened FileSystem
  import opened Analyzer
  import opened Mover

  /** `C:/Users`. */
  const UsersDir: Path := ["C:", "Users"]

  /** `format!("C:/Users/{}", username)`, the username taken as given. */
  function LegacyHome(username: string): Path {
    Join(UsersDir, username)
  }

  /** The six directories, with their English names. */
  function LegacyLayout(home: Path): Layout {
    Layout(Join(home, "Downloads"), Join(home, "Desktop"), Join(home, "Music"),
           Join(home, "Videos"), Join(home, "Pictures"), Join(home, "Documents"))
  }

  /** Empty files stay, folders are renamed and never merged, and the literal extension groups decide. */
  function LegacyPolicy(): Policy {
    Policy(false, false, DefaultExtensions())
  }

  /** `dir.contains("/Desktop") || dir.contains("\\Desktop")`. */
  predicate LegacyIsDesktop(root: Path) {
    Contains(Render(root), "/Desktop") || Contains(Render(root), "\\Desktop")
  }

  function LegacyNotFound(username: string): string {
    "User '" + username + "' not found. Please enter a valid Windows username."
  }

  /** The whole call: the home directory must exist; then the same run as the mover, under the legacy policy. */
  function LegacyRun(fs: Fs, username: string): Run {
    var home := LegacyHome(username);
    if !Exists(fs, home) then Run(Err(LegacyNotFound(username)), fs)
    else
      var l := LegacyLayout(home);
      Relocate(fs, l, LegacyIsDesktop(l.downloads), LegacyIsDesktop(l.desktop), LegacyPolicy())
  }

  /** `organize_files(username)`. */
  method LegacyOrganizeFiles(fs: Fs, username: string) returns (result: Result<FileStats, string>, fs': Fs)
    ensures result == Returned(LegacyRun(fs, username).result)
    ensures fs' == LegacyRun(fs, username).fs
  {
    var home := LegacyHome(username);
    if !Exists(fs, home) {
      return Err(LegacyNotFound(username)), fs;
    }
    var l := LegacyLayout(home);
    var stats;
    stats, fs' := RelocateAll(fs, l, LegacyIsDesktop(l.downloads), LegacyIsDesktop(l.desktop), LegacyPolicy());
    result := Ok(stats);
  }

  // ---------------------------------------------------------------------
  // Properties

  /** A missing home directory is an error naming the user, and nothing is touched. */
  lemma LegacyUnknownUser(fs: Fs, username: string)
    requires !Exists(fs, LegacyHome(username))
    ensures LegacyRun(fs, username).fs == fs
    ensures LegacyRun(fs, username).result.Err?
    ensures Contains(LegacyRun(fs, username).result.error, username)
  {
    ContainsPart("User '", username, "' not found. Please enter a valid Windows username.");
  }

  /**
   * The username is neither trimmed nor checked for emptiness: the empty
   * name stands for `C:/Users/` itself, which exists on any Windows host.
   */
  lemma LegacyEmptyUsernameAccepted(fs: Fs)
    requires Exists(fs, UsersDir)
    ensures LegacyRun(fs, "").result.Ok?
  {
  }

  /** A home that exists always gives a result, whatever the workers manage to move. */
  lemma LegacyKnownUser(fs: Fs, username: string)
    requires Exists(fs, LegacyHome(username))
    ensures LegacyRun(fs, username).result.Ok?
    ensures Total(Returned(LegacyRun(fs, username).result).value) == |LegacyRun(fs, username).result.value|
  {
    TallyTotal(LegacyRun(fs, username).result.value);
  }

  /** The rendering of a path below `home` ends with the separator and the name. */
  lemma EndsWithName(home: Path, n: string)
    requires n != ""
    ensures Contains(Render(Join(home, n)), "/" + n)
  {
    RenderEndsWith(home, n);
    ContainsPart(Render(home), "/" + n, "");
    assert Render(home) + "/" + n == Render(home) + ("/" + n) + "";
  }

  /** The Desktop worker is always treated as the desktop. */
  lemma LegacyDesktopIsDesktop(home: Path)
    ensures LegacyIsDesktop(LegacyLayout(home).desktop)
  {
    EndsWithName(home, "Desktop");
    assert "/" + "Desktop" == "/Desktop";
  }

  /**
   * So is the Downloads worker of a user whose home path already holds
   * "/Desktop" (a user called "Desktop", say): its folders then stay.
   */
  lemma LegacyDesktopInHome(username: string)
    requires Contains(Render(LegacyHome(username)), "/Desktop")
    ensures LegacyIsDesktop(LegacyLayout(LegacyHome(username)).downloads)
  {
    ContainedBelow(LegacyHome(username), "Downloads", "/Desktop");
  }

  lemma LegacyUserCalledDesktop()
    ensures LegacyIsDesktop(LegacyLayout(LegacyHome("Desktop")).downloads)
  {
    EndsWithName(UsersDir, "Desktop");
    assert "/" + "Desktop" == "/Desktop";
    LegacyDesktopInHome("Desktop");
  }

  /** Each worker's scan only reads: no file is deleted before the moves. */
  lemma LegacyScanReads(fs: Fs, root: Path, isDesktop: bool)
    ensures ScanRoot(fs, root, isDesktop, LegacyPolicy().dropEmptyFiles).fs == fs
  {
    if ReadDir(fs, root).Some? {
      ScanWithoutDropReads(Scan(fs, [], []), root, isDesktop, ReadDir(fs, root).value);
    }
  }

  /**
   * A folder with a majority category is moved by one rename into that
   * category's directory, keeping its name; the counter of that category
   * rises by one exactly when the rename succeeds, and a failed rename
   * leaves everything as it was.
   */
  lemma LegacyFolderRenamed(p: Pass, l: Layout, folder: Path, c: Category)
    requires folder != [] && Majority(WalkStats(DefaultExtensions(), Walk(p.fs, folder))) == Some(c)
    ensures var target := Join(TargetDir(l, c), Last(folder));
            var r := FolderStep(p, l, LegacyPolicy(), folder);
            && r.fs == Rename(p.fs, folder, target).fs
            && Mover.Tally(r.moves) == (if CanRename(p.fs, folder, target) then Add(Mover.Tally(p.moves), Unit(c)) else Mover.Tally(p.moves))
            && (CanRename(p.fs, folder, target) ==> Lookup(r.fs, target) == Lookup(p.fs, folder))
            && (!CanRename(p.fs, folder, target) ==> r == p)
  {
    LegacyFolderStep(p, l, folder, c);
    RenameRecorded(p, Join(TargetDir(l, c), Last(folder)), folder, c);
  }

  /** What one recorded rename does to the filesystem and to the counters. */
  lemma RenameRecorded(p: Pass, target: Path, folder: Path, c: Category)
    ensures var o := Rename(p.fs, folder, target);
            var r := Pass(o.fs, if o.ok then p.moves + [Move(folder, target, c)] else p.moves);
            && Mover.Tally(r.moves) == (if o.ok then Add(Mover.Tally(p.moves), Unit(c)) else Mover.Tally(p.moves))
            && (o.ok ==> Lookup(r.fs, target) == Lookup(p.fs, folder))
            && (!o.ok ==> r == p)
  {
    var o := Rename(p.fs, folder, target);
    if o.ok {
      TallySnoc(p.moves, Move(folder, target, c));
      RenamedNode(p.fs, folder, target);
    }
  }

  /** After a successful rename the destination holds what the source held. */
  lemma RenamedNode(fs: Fs, src: Path, dst: Path)
    requires Rename(fs, src, dst).ok
    ensures Lookup(Rename(fs, src, dst).fs, dst) == Lookup(fs, src)
  {
    RenameMoves(fs, src, dst, []);
    assert dst + [] == dst;
  }

  /** The folder step under the legacy policy, unfolded. */
  lemma LegacyFolderStep(p: Pass, l: Layout, folder: Path, c: Category)
    requires folder != [] && Majority(WalkStats(DefaultExtensions(), Walk(p.fs, folder))) == Some(c)
    ensures var target := Join(TargetDir(l, c), Last(folder));
            var o := Rename(p.fs, folder, target);
            FolderStep(p, l, LegacyPolicy(), folder) ==
            Pass(o.fs, if o.ok then p.moves + [Move(folder, target, c)] else p.moves)
  {
    var target := Join(TargetDir(l, c), Last(folder));
    assert MoveFolder(p.fs, LegacyPolicy(), folder, target) == Rename(p.fs, folder, target);
  }

  /** The literal extension match of the file loop is the classification the legacy policy uses. */
  lemma LegacyFileMatch(name: string)
    requires Extension(name).Some?
    ensures FileCategory(LegacyPolicy().exts, name) == HardcodedCategory(ToLower(Extension(name).value))
  {
    HardcodedIsDefault(ToLower(Extension(name).value));
  }
}
