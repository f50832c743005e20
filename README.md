# rustganizer's classification and relocation engine, in Dafny

This project models the core of rustganizer, a file organiser. For one
user it moves the recognised files and folders out of the Downloads and
Desktop directories into the Music, Videos, Pictures and Documents
directories; unrecognised files and folders with no majority stay. Files are sent by extension.
Sub-folders of Downloads are sent whole, to the directory of the category
most of their files belong to. The run returns four counters, one per
category.

The filesystem is a value, not the real disk:

- `FileSystem.Fs` is a tree of files (with their length) and
  directories (with their entries in enumeration order).
- It also holds a set of refused paths, where listing, renaming and
  removing fail. A failing I/O call is modelled as a refusal.
- Every operation returns the new tree and a success flag.

Modules, following the source:

| module | source | what it holds |
|---|---|---|
| `Config` | `src/config.rs` | extension lists, localisation tables, error templates, `get_file_category` |
| `Types` | `src/organizer/types.rs` | `FileStats`, `new`, `add` (as a value and as an in-place cell) |
| `Analyzer` | `src/organizer/analyzer.rs` | recursive `analyze_folder`; `get_majority_type` with its in-place stable sort |
| `AsyncAnalysis` | `src/organizer/async_analyzer.rs` | the analyser's bound, single-directory counts, per-file stats, sums, batches |
| `User` | `src/platform/user.rs` | `list_users` and `user_home` for Windows, macOS and other Unix roots |
| `Errors` | `src/error.rs` | the `Error` variants, the fatal and retryable predicates, `ErrorHandler`, `ErrorContext` |
| `Merge` | `src/organizer/mover.rs` | `move_dir_recursive` |
| `Mover` | `src/organizer/mover.rs` | `organize_files`: validation, directory setup, scan, folder pass, file pass, counters |
| `LegacyOrganizer` | `src/organizer.rs` | the older Windows-only `organize_files` |
| `FileSystem`, `Text`, `Wrappers` | | the filesystem value, string helpers, `Option` and `Result` |

The two worker threads of `organize_files` share only four counters, and
those only ever receive increments. They are therefore modelled as two
passes run one after the other: Downloads first, then Desktop. The second
pass sees the filesystem the first one left.

Each pass has two forms:

- a function (`Mover.RootPass`), which the lemmas are about;
- a method with the source's loops (`Mover.ProcessRoot`, `Mover.MoveFolders`,
  `Mover.MoveFiles`), proved equal to that function.

The methods increment a `Mover.Counters` object in place.

The older organiser runs the same passes under a different policy:

- zero-length files are not deleted;
- folders are renamed, never merged;
- the extension lists are literal.

The source as given does not compile at one call. `src/organizer/mover.rs:143`
calls `analyze_folder(folder_path, &config)`, but `src/organizer/analyzer.rs:7`
declares `analyze_folder(path: &Path)`, which matches against the literal
lists at `src/organizer/analyzer.rs:18-21`. The model chooses the declared
function: folder analysis uses the default lists and ignores the
configuration. `Analyzer.HardcodedIsDefault` proves that those literal lists
are the default ones. The file pass of the mover uses the configuration's
lists (`src/organizer/mover.rs:177-185`), as written.

## Model

| member | source | states |
|---|---|---|
| `Text.Trim` | src/organizer/mover.rs:41 | `str::trim`: the result sits somewhere in the input with only whitespace before and after it; it is empty exactly when every character is whitespace, and otherwise starts and ends with a non-whitespace character |
| `Text.ToLower` | src/config.rs:189 | lower-casing keeps the length and lower-cases every character in place |
| `Text.ToLowerIdempotent` | src/organizer/analyzer.rs:17 | lower-casing an already lower-cased extension changes nothing |
| `Text.ToLowerOfUpper` | src/organizer/analyzer.rs:17 | lower-casing an upper-cased string gives the lower-cased original, which is what makes matching case-insensitive |
| `Text.ContainsIff` | src/organizer/mover.rs:116 | `str::contains` is true exactly when the pattern occurs at some offset |
| `Text.ReplaceAllKeepsReplacement` | src/config.rs:184 | when the template holds the placeholder, the result of `replace` holds the replacement |
| `Text.ReplaceSingle` | src/config.rs:184 | `replace` on a template with one placeholder and no other `{` swaps in the replacement and keeps both sides |
| `FileSystem.ReadDir` | src/organizer/mover.rs:122 | `read_dir` succeeds exactly on a directory that is not refused, and yields that directory's entries |
| `FileSystem.Rename` | src/organizer/mover.rs:191 | `fs::rename` succeeds exactly under `CanRename`: both paths allowed, the source exists, the destination's parent is a directory, the destination is not inside the source, and it is absent (or, for a file, another file); a failed rename changes nothing |
| `FileSystem.RenameMoves` | src/organizer/mover.rs:24 | after a successful rename, everything that was below the source is at the same relative path below the destination |
| `FileSystem.RenameRemovesSource` | src/organizer/mover.rs:24 | after a successful rename between distinct paths, nothing is left at or below the source |
| `FileSystem.RenameFrame` | src/organizer/mover.rs:191 | a successful rename changes nothing at paths apart from its two paths |
| `FileSystem.RemoveFile` | src/organizer/mover.rs:132 | `fs::remove_file` succeeds exactly on an allowed file, and otherwise changes nothing |
| `FileSystem.RemoveDir` | src/organizer/mover.rs:35 | `fs::remove_dir` succeeds exactly on an allowed empty directory, and otherwise changes nothing |
| `FileSystem.RemoveEffect` | src/organizer/mover.rs:132 | a successful removal leaves nothing at or below the path and nothing changed apart from it |
| `FileSystem.CreateDir` | src/organizer/mover.rs:100 | `create_dir` succeeds exactly on an absent, allowed path under an existing directory, and leaves an empty directory there |
| `FileSystem.CreateDirAll` | src/organizer/mover.rs:100 | a successful `create_dir_all` leaves a directory at the path |
| `FileSystem.CreateDirAllFrame` | src/organizer/mover.rs:99-103 | creating directories changes no file, removes nothing, and only adds paths on the way to the requested one |
| `FileSystem.Extension` | src/organizer/mover.rs:175 | `Path::extension` is the dot-free text after the last dot; there is none when the name has no dot except possibly its first character, or is ".." |
| `FileSystem.ExtensionOfJoin` | src/organizer/analyzer.rs:16 | a non-empty stem, a dot and a dot-free extension give back exactly that extension |
| `Config.EnglishDirsAreRoleNames` | src/organizer/mover.rs:268-277 | with the default table, every English directory name is its role name |
| `Config.UnknownLanguageIsEnglish` | src/config.rs:156 | an unknown language gets the role name, which equals the English entry |
| `Config.SpanishDirs` | src/organizer/mover.rs:279-288 | the six Spanish names of the default table ("Descargas", "Escritorio", "Música", "Vídeos", "Imágenes", "Documentos"); French falls back to "Downloads" |
| `Config.GetErrorMessage` | src/config.rs:165-185 | any configuration: an unknown key gives "Unknown error"; a chosen template holding `{username}` gives a message holding the username; a template without `{` comes out verbatim |
| `Config.UnknownKeyMessage` | src/config.rs:180-182 | a key other than the two known ones gives "Unknown error", whatever the language |
| `Config.MissingLanguageUsesFallback` | src/config.rs:170-183 | an unknown language gets the English fallback template, with the username substituted |
| `Config.DefaultTemplates` | src/config.rs:92-104 | the default templates are the Spanish ones for "es" and the English ones for every other language |
| `Config.DefaultUserNotFoundMessage` | src/organizer/mover.rs:240-266 | the default `user_not_found` message is "User <name> not found. Please enter a valid username." (Spanish for "es"), with the name substituted |
| `Config.UserNotFoundNamesUser` | src/config.rs:247-256 | in every language, the default `user_not_found` message contains the username |
| `Config.DefaultEmptyUsernameMessage` | src/config.rs:252 | the default `empty_username` message has no placeholder and is "Empty username. Please enter a valid username." outside Spanish |
| `Config.Classify` | src/config.rs:191-205 | the first of the music, video, image and docs lists holding the extension; none exactly when no list holds it |
| `Config.DefaultListsDisjoint` | src/config.rs:137-148 | the six default lists are pairwise disjoint, so first-match order does not change the default result |
| `Config.DefaultClassifyIff` | src/config.rs:140-143 | with the default lists, the classification is a category exactly when the extension is in that category's list |
| `Config.GetFileCategory` | src/config.rs:188-206 | the result, when there is one, is one of the six labels |
| `Config.GetFileCategoryMatchesClassify` | src/config.rs:189-205 | `get_file_category` is the first-match classification of the lower-cased extension, with "archives" and "code" tried last |
| `Config.GetFileCategoryNone` | src/config.rs:205 | `get_file_category` gives `None` exactly when none of the six lists holds the lower-cased extension |
| `Config.GetFileCategoryCaseInsensitive` | src/config.rs:189 | `get_file_category(e)` equals `get_file_category` of `e` lower-cased, and of `e` upper-cased |
| `Config.DefaultCategories` | src/config.rs:237-245 | the default configuration classifies "mp3", "MP4", "png", "pdf", "zip" and "unknown" as music, video, image, docs, archives and none |
| `Types.New` | src/organizer/types.rs:15-17 | every counter is 0 |
| `Types.Add` | src/organizer/types.rs:20-25 | each counter of the result is the sum of the two counters |
| `Types.FileStatsCell.constructor` | src/organizer/types.rs:15-17 | a fresh cell holds zero stats |
| `Types.FileStatsCell.Add` | src/organizer/types.rs:20-25 | in place, each field of `self` becomes its old value plus the other's field; `other` is a value and stays unchanged |
| `Types.Unit` | src/organizer/types.rs:5-11 | one file of a category: that counter at 1, the others at 0 |
| `Types.CountsDetermine` | src/organizer/types.rs:5-11 | two stats with equal counters are equal |
| `Types.AddMonotone` | src/organizer/types.rs:20-25 | `add` never decreases a counter of `self` |
| `Types.AddZero` | src/organizer/types.rs:20-25 | adding zero stats, on either side, is the identity |
| `Types.AddTotal` | src/organizer/types.rs:20-25 | the total of a sum is the sum of the totals |
| `Types.AddCommutes` | src/organizer/types.rs:20-25 | `add` is commutative |
| `Types.AddAssociates` | src/organizer/types.rs:20-25 | `add` is associative |
| `Types.SumAppend` | src/organizer/types.rs:20-25 | adding two runs of stats in turn gives the sum of their sums |
| `Types.SumCount` | src/organizer/types.rs:20-25 | each counter of a sum is the sum of that counter over the parts |
| `Types.SumPermutation` | src/organizer/types.rs:20-25 | adding several stats in any order gives the same result |
| `Analyzer.HardcodedIsDefault` | src/organizer/analyzer.rs:17-23 | the literal match on extensions is the first-match classification over the default lists |
| `Analyzer.OfCategory` | src/organizer/analyzer.rs:14-22 | the walked items counted for a category: exactly the walked files whose extension classifies into it |
| `Analyzer.Recognised` | src/organizer/analyzer.rs:14-22 | the walked items counted at all: exactly the walked files with a recognised extension |
| `Analyzer.WalkStatsCounts` | src/organizer/analyzer.rs:14-26 | each counter of `analyze_folder` is the number of files in the tree whose lower-cased extension is in that category's list |
| `Analyzer.WalkStatsTotal` | src/organizer/analyzer.rs:17-22 | the four counters add up to the number of recognised files in the tree |
| `Analyzer.FileCategoryCaseInsensitive` | src/organizer/analyzer.rs:17 | upper-casing a file's extension does not change its category |
| `Analyzer.UpperCaseExtensionExample` | src/organizer/analyzer.rs:17 | "song.MP3" and "song.mp3" both count as music |
| `Analyzer.AnalyzeFolder` | src/organizer/analyzer.rs:7-28 | the loop over the walk yields the walk's stats, so its counters are the ones `WalkStatsCounts` describes |
| `Analyzer.TopIff` | src/organizer/analyzer.rs:31-37 | the head of the sort is the category with the largest count, ties going to the earliest of music, video, image, docs |
| `Analyzer.MajorityIff` | src/organizer.rs:40-55 | the majority is a category exactly when its count is positive and it is the head of the stable descending sort |
| `Analyzer.MajorityIsLargest` | src/organizer/analyzer.rs:37-39 | the majority's count is at least every other count, and strictly greater than that of every category listed before it |
| `Analyzer.MajorityNoneIff` | src/organizer/analyzer.rs:38-42 | there is no majority exactly when all four counts are 0 |
| `Analyzer.MajorityExamples` | src/organizer/async_analyzer.rs:213-227 | (5,2,1,0) gives music, all zeros none, and a tie between video and docs gives video |
| `Analyzer.SortedHeadIsTop` | src/organizer/analyzer.rs:37-38 | any descending arrangement of the four pairs that keeps the initial order among equal counts has the top category first |
| `Analyzer.SortByCountDescending` | src/organizer/analyzer.rs:37 | the in-place sort is a permutation of the array, ordered by descending count and stable |
| `Analyzer.Insert` | src/organizer/analyzer.rs:37 | one insertion step keeps the array a permutation and extends the sorted, stable prefix by one |
| `Analyzer.GetMajorityType` | src/organizer/analyzer.rs:30-43 | building the four pairs, sorting in place and reading element 0 gives the majority |
| `AsyncAnalysis.NewAnalyzer` | src/organizer/async_analyzer.rs:18-28 | `max_concurrent` is `min(4, cpus * 2)`: at most 4, at most twice the CPU count, and equal to one of them |
| `AsyncAnalysis.DefaultAnalyzer` | src/organizer/async_analyzer.rs:161-165 | the default analyser has the default configuration and a bound of at most 4 |
| `AsyncAnalysis.FileStatsOf` | src/organizer/async_analyzer.rs:95-120 | at most one counter is set, and one is set exactly when the path is a file with a recognised extension |
| `AsyncAnalysis.FileStatsOfCounts` | src/organizer/async_analyzer.rs:99-119 | the counter of a category is 1 exactly when the path is a file whose extension classifies into that category |
| `AsyncAnalysis.DirectoryStats` | src/organizer/async_analyzer.rs:61-92 | the analysis of a directory succeeds exactly when it can be listed |
| `AsyncAnalysis.FilesOfCategory` | src/organizer/async_analyzer.rs:68-91 | a name is kept exactly when it is the name of an entry of the listing that is a regular file whose extension classifies, first match, as the category; no more names are kept than there are entries |
| `AsyncAnalysis.EntriesStatsCounts` | src/organizer/async_analyzer.rs:68-91 | each counter of `analyze_single_directory` is the number of immediate files of the directory in that category; sub-directories are not entered |
| `AsyncAnalysis.AnalyzeSingleDirectory` | src/organizer/async_analyzer.rs:61-92 | the `while let` loop yields the directory's stats, or the listing error |
| `AsyncAnalysis.GetFileStats` | src/organizer/async_analyzer.rs:95-120 | `get_file_stats` never fails and returns the per-file stats |
| `AsyncAnalysis.SuccessSumSnoc` | src/organizer/async_analyzer.rs:44-52 | one more directory adds its stats when its analysis succeeds, and nothing when it fails |
| `AsyncAnalysis.SuccessSumAppend` | src/organizer/async_analyzer.rs:40-57 | the sum over two runs of directories is the sum of their sums |
| `AsyncAnalysis.FailingDirectorySkipped` | src/organizer/async_analyzer.rs:48-51 | a directory that cannot be analysed contributes nothing, wherever it sits |
| `AsyncAnalysis.AnalyzeDirectories` | src/organizer/async_analyzer.rs:31-58 | always `Ok`, holding the componentwise sum over the directories whose analysis succeeded |
| `AsyncAnalysis.FileStatsAll` | src/organizer/async_analyzer.rs:146-157 | one result per input path |
| `AsyncAnalysis.FileStatsAllAt` | src/organizer/async_analyzer.rs:146-157 | the result at position i is the stats of the i-th input path |
| `AsyncAnalysis.BatchAnalyzeFiles` | src/organizer/async_analyzer.rs:140-158 | always `Ok`, holding one per-file result per input path, in input order |
| `AsyncAnalysis.Mp3FileExample` | src/organizer/async_analyzer.rs:175-190 | a file "test.mp3" under the default configuration counts as exactly one music file |
| `User.UsersRoot` | src/platform/user.rs:15-94 | each provider's root, "C:/Users", "/Users" or "/home", is a non-empty path of non-empty components |
| `User.DirNames` | src/platform/user.rs:19-25 | the names kept are exactly those of listed entries that are directories |
| `User.Users` | src/platform/user.rs:15-28 | an unreadable root gives the empty list; a non-empty list comes from a root that is a directory |
| `User.ListUsers` | src/platform/user.rs:44-57 | the `for` loop with `push` returns the directory names under the root, in enumeration order |
| `User.UserHome` | src/platform/user.rs:29-36 | `Some(root/u)` exactly when that path exists, `None` otherwise |
| `User.ListedUsersAreDirectories` | src/platform/user.rs:73-86 | a name is listed exactly when the root can be read, the name is non-empty and `root/name` is a directory |
| `User.ListedUserHasHome` | src/platform/user.rs:87-94 | every listed user has a home, `root/u`, and it is a directory |
| `User.ListedUsersNonEmpty` | src/platform/user.rs:58-65 | every listed username is non-empty |
| `Errors.RetryableExactly` | src/error.rs:121-127 | retryable errors are filesystem errors, and a filesystem error is retryable exactly when its kind is `WouldBlock` or `Interrupted` |
| `Errors.NeverFatalAndRetryable` | src/error.rs:121-137 | no error is both fatal and retryable |
| `Errors.UserNotFoundIsNeither` | src/error.rs:129-137 | `UserNotFound` is neither fatal nor retryable |
| `Errors.IoPermissionDeniedIsNotFatal` | src/error.rs:131-136 | the `PermissionDenied` variant is fatal, but an I/O error of kind `PermissionDenied` is not |
| `Errors.HandleFileOperation` | src/error.rs:97-107 | the error is `FileOperation`, carrying the given operation, path and I/O error |
| `Errors.HandleDirectoryOperation` | src/error.rs:109-119 | the error is `DirectoryOperation`, carrying the given operation, path and I/O error |
| `Errors.HandledErrorsAreNeither` | src/error.rs:97-137 | the errors the handlers build are neither fatal nor retryable |
| `Errors.NewContext` | src/error.rs:73-80 | a new context has the operation and no path or user information |
| `Errors.WithPath` | src/error.rs:82-85 | sets the path and leaves every other field unchanged |
| `Errors.WithUserInfo` | src/error.rs:87-90 | sets the user information and leaves every other field unchanged |
| `Errors.BuildersCommute` | src/error.rs:82-90 | setting the path and the user information commute |
| `Errors.LastPathWins` | src/error.rs:82-85 | a second `with_path` overrides the first |
| `Errors.BuiltContext` | src/error.rs:73-90 | `new(op).with_path(p).with_user_info(u)` has exactly those three fields set |
| `Merge.MoveDirRecursive` | src/organizer/mover.rs:20-37 | the method with its loop over the entries computes `MoveTree`: a single rename when the destination is absent, otherwise each entry merged or renamed in listing order, stopping at the first error, then the source removed |
| `Merge.RenameFacts` | src/organizer/mover.rs:21-23 | when the destination is absent, a successful single rename leaves the source gone, every source file at its relative path under the destination, and nothing apart from the two trees changed |
| `Merge.MoveTreeFacts` | src/organizer/mover.rs:20-37 | after a successful move: the source no longer exists; every file below the destination is the source's file at that relative path if it had one there (overwriting a same-named file), else the destination's old one; nothing apart from the two trees changed; the directories above the destination stay |
| `Merge.MoveEntriesFacts` | src/organizer/mover.rs:25-34 | once the entry loop succeeds, each entry's subtree has been merged into the destination and nothing else changed |
| `Merge.MoveEntryFacts` | src/organizer/mover.rs:27-33 | one entry, merged recursively if a directory and renamed otherwise, ends up merged under the destination |
| `Merge.RemoveAfterMerge` | src/organizer/mover.rs:35 | the final `remove_dir` of the emptied source keeps the merge result and leaves the source gone |
| `Mover.Counters.constructor` | src/organizer/mover.rs:58-61 | the four counters start at 0 |
| `Mover.Counters.Bump` | src/organizer/mover.rs:161-169 | `*count += 1` adds one to the counter of exactly the given category |
| `Mover.MovesOf` | src/organizer/mover.rs:157-160 | the recorded moves of a category are exactly the moves whose category it is |
| `Mover.TallySnoc` | src/organizer/mover.rs:168-169 | one more successful move adds one to its own category's counter |
| `Mover.TallyAppend` | src/organizer/mover.rs:218-232 | the counters after both workers are the sum of their counters |
| `Mover.TallyCounts` | src/organizer/mover.rs:221-232 | each returned counter is the number of successful moves of that category |
| `Mover.TallyTotal` | src/organizer/mover.rs:221-232 | the four counters add up to the number of successful moves |
| `Mover.ScanRootDir` | src/organizer/mover.rs:119-141 | the scanning loop computes the scan: folders queued unless the root is the desktop, zero-length files deleted, other files queued |
| `Mover.DesktopQueuesNoFolders` | src/organizer/mover.rs:125-128 | scanning a desktop root queues no folder |
| `Mover.ScanWithoutDropReads` | src/organizer/mover.rs:129-138 | when zero-length files are not dropped, the scan changes nothing on disk |
| `Mover.EmptyFileDropped` | src/organizer/mover.rs:130-136 | a zero-length, removable file listed directly under a root is gone after the scan and is queued neither as a file nor as a folder |
| `Mover.ScanKeepsFiles` | src/organizer/mover.rs:129-138 | the scan changes no remaining file, and every queued file is a file of the original tree, non-empty when dropping |
| `Mover.ScannedFiles` | src/organizer/mover.rs:129-138 | every file a scan queues existed before it, with a non-zero length when zero-length files are dropped |
| `Mover.MoveFolders` | src/organizer/mover.rs:142-173 | the folder loop computes the folder pass, and the counters grow by exactly the tally of its successful moves |
| `Mover.MoveFiles` | src/organizer/mover.rs:174-214 | the file loop computes the file pass, and the counters grow by exactly the tally of its successful moves |
| `Mover.ProcessRoot` | src/organizer/mover.rs:118-215 | one worker computes the root pass and adds its tally to the counters |
| `Mover.FolderStepMoves` | src/organizer/mover.rs:144-170 | a folder move is recorded only for that folder, into `<categoryDir>/<folder name>` |
| `Mover.FolderPassMoves` | src/organizer/mover.rs:142-173 | every recorded folder move comes from a queued folder and goes to its category's directory under its own name |
| `Mover.FileStepMoves` | src/organizer/mover.rs:175-211 | a file move is recorded only for that file, into `<categoryDir>/<file name>`, the category being the first list holding its lower-cased extension |
| `Mover.FilePassMoves` | src/organizer/mover.rs:174-214 | every recorded file move comes from a queued file whose extension picks the category that also chose the target directory |
| `Mover.RootPassMoves` | src/organizer/mover.rs:118-215 | each move of a worker goes to `<categoryDir>/<name>` from a queued path, and a file's category is its extension's; on the desktop, every move is a file move |
| `Mover.EmptyFileNeverMoved` | src/organizer/mover.rs:130-136 | a zero-length file directly under a root is never moved, so never counted |
| `Mover.EnsureDirectories` | src/organizer/mover.rs:92-104 | the loop computes `EnsureDirs`, calling `create_dir_all` on each missing directory and ignoring its failure |
| `Mover.EnsureDirsFrame` | src/organizer/mover.rs:92-104 | ensuring directories changes no file, removes nothing, and only creates paths on the way to one of the five directories |
| `Mover.EnsureDirsSplit` | src/organizer/mover.rs:92-104 | the loop over the directories runs in order: ensuring a list is ensuring its first part and then the rest |
| `Mover.EnsureDirsExist` | src/organizer/mover.rs:92-104 | each listed directory exists after the loop unless `create_dir_all` failed on it at its turn; one that was a directory at its turn is still a directory at the end |
| `Mover.DownloadsNotCreated` | src/organizer/mover.rs:92-98 | with distinct non-empty localised names, a missing Downloads directory is still missing afterwards |
| `Mover.DefaultDownloadsNotCreated` | src/organizer/mover.rs:92-98 | under the default configuration, a missing Downloads directory is not created, in every language |
| `Mover.DesktopRootIsDesktop` | src/organizer/mover.rs:116 | the Desktop root always contains the localised desktop name |
| `Mover.DesktopNameInHome` | src/organizer/mover.rs:116 | because the test is a substring test on the whole path, Downloads also counts as the desktop when the home path already contains the localised desktop name |
| `Mover.RelocateAll` | src/organizer/mover.rs:92-233 | setup, then the two workers in turn, returning the counters of all their successful moves |
| `Mover.RelocateMoves` | src/organizer/mover.rs:105-233 | the run's record is the Downloads moves followed by the Desktop moves; all go to `<categoryDir>/<name>`, and the Desktop ones are queued files moved by their extension's category |
| `Mover.OrganizeFiles` | src/organizer/mover.rs:40-234 | the whole call: trimmed username checked, home resolved, then the relocation; the result and final tree are those of `Organize` |
| `Mover.EmptyUsernameRejected` | src/organizer/mover.rs:41-44 | a username that is empty after trimming gives the localised `empty_username` error, and the tree is not touched |
| `Mover.DefaultEmptyUsernameRejected` | src/organizer/mover.rs:41-44 | with the default configuration that error is the English or Spanish template, and nothing changes |
| `Mover.UnknownUserRejected` | src/organizer/mover.rs:51-56 | when the home does not exist, the result is the localised `user_not_found` error for the trimmed name, and nothing is created or moved |
| `Mover.DefaultUnknownUserMessage` | src/organizer/mover.rs:240-266 | with the default configuration that error contains the trimmed username and, outside Spanish, reads "User <name> not found. Please enter a valid username." |
| `Mover.OrganizeCounts` | src/organizer/mover.rs:154-232 | on success, each returned counter is the number of successful moves of its category, and the total is the number of moves |
| `Mover.OrganizeRelocates` | src/organizer/mover.rs:51-118 | for an existing home, the call is the relocation over the localised layout, with the Desktop root always a desktop and Downloads one exactly when its path contains the desktop name |
| `LegacyOrganizer.LegacyOrganizeFiles` | src/organizer.rs:57-230 | the call is `LegacyRun`: the home must exist, then the same two passes under the legacy policy |
| `LegacyOrganizer.LegacyUnknownUser` | src/organizer.rs:59-65 | a missing `C:/Users/<name>` gives an error containing the name, before anything is touched |
| `LegacyOrganizer.LegacyEmptyUsernameAccepted` | src/organizer.rs:57-65 | the username is not trimmed or checked: the empty name stands for `C:/Users` itself and is accepted |
| `LegacyOrganizer.LegacyKnownUser` | src/organizer.rs:215-229 | an existing home always gives `Ok`, whose total is the number of successful moves |
| `LegacyOrganizer.EndsWithName` | src/organizer.rs:73-78 | a directory joined under the home renders with "/" and its name |
| `LegacyOrganizer.LegacyDesktopIsDesktop` | src/organizer.rs:109 | the Desktop root contains "/Desktop", so it is always treated as the desktop |
| `LegacyOrganizer.LegacyDesktopInHome` | src/organizer.rs:109 | Downloads is treated as the desktop too when the home path already contains "/Desktop" |
| `LegacyOrganizer.LegacyUserCalledDesktop` | src/organizer.rs:109 | for a user called "Desktop", Downloads is treated as the desktop, so its folders stay |
| `LegacyOrganizer.LegacyScanReads` | src/organizer.rs:118-130 | the legacy scan deletes nothing |
| `LegacyOrganizer.LegacyFolderRenamed` | src/organizer.rs:133-164 | a folder with a majority category is moved by one rename into that category's directory under its own name; its counter rises by one exactly when the rename succeeds (a directory never replaces an existing path), and a failed rename leaves everything as it was |
| `LegacyOrganizer.LegacyFileMatch` | src/organizer.rs:170-206 | the literal extension match of the file loop is the classification the legacy policy uses, for both the target directory and the counter |

## Left out

- Threads, `Arc<Mutex<..>>` and `join`: the two workers run one after the other, Downloads first. Their increments commute, but the interleaving of their filesystem effects is not modelled.
- The "Thread panicked" error at `src/organizer/mover.rs:219` is not modelled.
- Tokio, `tracing`, `eprintln!` and the UI, logging, `main.rs` and `build.rs` files are not part of this model. `num_cpus::get()` is a parameter.
- `processed_paths` appears only as the list of recorded moves. The `ErrorContext` timestamp is not modelled.
- The real filesystem is a tree value. Listings are snapshots taken when a loop starts. The nested loops of the folder merge are an exception: `Merge.MoveEntry` hands the nested merge the entry's subtree as it stood in the parent's listing, where the source lists the sub-directory afresh. The two agree when the destination lies outside the source and the subtree is the one at the source path, which is what `Merge.MoveTreeFacts` requires (`Incomparable(s, d)` and `Lookup(fs, s) == Some(tree)`). A failing I/O call is modelled as a refused path, so the model does not carry `io::Error` values from the filesystem.
- `fs::metadata` is taken to succeed on a file. The source's path for a failed `metadata`, which queues the file anyway, is not modelled.
- Directory entries that fail to read (the `filter_map(|e| e.ok())` and `entry?` cases) are not modelled: every listed entry is readable.
- A directory rename never replaces an existing path, even an empty directory, which some platforms allow.
- A failed folder merge leaves the moves it made before failing in place, and they are not counted, as in the source. The model does not single out which partial state remains.
- Lower-casing is ASCII only; Unicode case folding is not modelled.
- `usize` counters are unbounded `nat`s: overflow is not modelled.
- Usernames and localised directory names are single path components; a name holding a separator is not modelled.
- Paths render with a leading "/", so `C:/Users/u` renders as "/C:/Users/u". The model never produces a backslash separator, while on Windows the source's `PathBuf::from("C:/Users").join(username)` gives `C:/Users\bob`; the substring tests look for separator-free names, so they cannot see the difference.
- The platform is a parameter (`User.Platform`), in place of compile-time `cfg` selection.
- The `Display` strings of `Error` and the foreign payloads (`config::ConfigError`, `serde_json`, `anyhow`) are opaque values.
- `Config`'s `logging`, `performance`, `ui` and `version` fields are not used by the engine and are left out. So is `ErrorMessages` for languages other than English and Spanish.
- AsyncAnalysis.FileStatsAll: its own contract states only the length; the per-position result is stated by `AsyncAnalysis.FileStatsAllAt`.
- The per-user aggregation in the UI that calls `FileStats::add` is not part of this model; `Types.FileStatsCell` models `add` in place on its own.
- Mover.MoveFolders (through Mover.FolderStep): folders are classified with `DefaultExtensions()`, not with `cfg.fileExtensions`, because `src/organizer/mover.rs:143` and `src/organizer/analyzer.rs:7` disagree on whether `analyze_folder` takes the configuration; a configuration with other lists would classify folders differently in a version that passed them through.
- User.UserHome: the home is `root` joined with the username as one plain component, looked up by exact name. Two gaps follow, and they carry over to Mover.UnknownUserRejected, Mover.DefaultUnknownUserMessage and LegacyOrganizer.LegacyUnknownUser. First, "." and ".." are not resolved: the real `exists()` finds `/home/..`, so the source accepts those usernames and goes on to organise the resolved directory, where the model rejects them. Second, Windows and macOS match names case-insensitively ("bob" finds `Bob`), where the model matches exactly.
