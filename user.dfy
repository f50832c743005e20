/**
 * The three `UserProvider`s: each lists the directories below its users
 * root (`C:/Users`, `/Users`, `/home`) and resolves a user's home there.
 */
module User {
  import opened Wrappers
  import opened FileSystem

  /** The target the provider was compiled for. */
  datatype Platform = Windows | Mac | Unix

  /** The directory a provider reads: `C:/Users`, `/Users` or `/home`. */
  function UsersRoot(platform: Platform): (r: Path)
    ensures r != [] && ValidPath(r)
  {
    match platform
    case Windows => ["C:", "Users"]
    case Mac => ["Users"]
    case Unix => ["home"]
  }

  /**
   * The names `list_users` pushes for the entries `es` of `root`, in their
   * order: the file name of each entry path that is a directory.
   */
  function DirNames(fs: Fs, root: Path, es: seq<Entry>): (r: seq<string>)
    requires root != []
    ensures |r| <= |es|
    ensures forall u :: u in r <==>
      exists k :: 0 <= k < |es| && IsDir(fs, Join(root, es[k].name)) && Last(Join(root, es[k].name)) == u
    decreases |es|
  {
    if es == [] then []
    else
      var front := es[..|es| - 1];
      var path := Join(root, es[|es| - 1].name);
      assert forall k :: 0 <= k < |front| ==> front[k] == es[k];
      DirNames(fs, root, front) + if IsDir(fs, path) then [Last(path)] else []
  }

  /** `UserProvider::list_users`: nothing when the root cannot be read. */
  function Users(fs: Fs, platform: Platform): (r: seq<string>)
    ensures ReadDir(fs, UsersRoot(platform)).None? ==> r == []
    ensures r != [] ==> IsDir(fs, UsersRoot(platform))
  {
    match ReadDir(fs, UsersRoot(platform))
    case None => []
    case Some(es) => DirNames(fs, UsersRoot(platform), es)
  }

  /** `UserProvider::list_users`, the loop over the root's entries. */
  method ListUsers(fs: Fs, platform: Platform) returns (users: seq<string>)
    ensures users == Users(fs, platform)
  {
    users := [];
    var root := UsersRoot(platform);
    match ReadDir(fs, root) {
      case None =>
      case Some(entries) =>
        var i := 0;
        while i < |entries|
          invariant 0 <= i <= |entries|
          invariant users == DirNames(fs, root, entries[..i])
        {
          var path := Join(root, entries[i].name);
          assert entries[..i + 1][..i] == entries[..i];
          if IsDir(fs, path) {
            users := users + [Last(path)];
          }
          i := i + 1;
        }
        assert entries[..|entries|] == entries;
    }
  }

  /** `UserProvider::user_home`: the joined path, exactly when something is there. */
  function UserHome(fs: Fs, platform: Platform, username: string): (r: Option<Path>)
    ensures r.Some? <==> Exists(fs, Join(UsersRoot(platform), username))
    ensures r.Some? ==> r.value == Join(UsersRoot(platform), username)
  {
    var candidate := Join(UsersRoot(platform), username);
    if Exists(fs, candidate) then Some(candidate) else None
  }

  /** On a well-formed tree, the users listed are exactly the directories below the root, by name. */
  lemma ListedUsersAreDirectories(fs: Fs, platform: Platform, u: string)
    requires WellFormed(fs)
    ensures u in Users(fs, platform) <==>
      ReadDir(fs, UsersRoot(platform)).Some? && u != "" && IsDir(fs, UsersRoot(platform) + [u])
  {
    var root := UsersRoot(platform);
    match ReadDir(fs, root) {
      case None =>
      case Some(es) =>
        LookupWellFormed(fs.root, root);
        if u in Users(fs, platform) {
          var k :| 0 <= k < |es| && IsDir(fs, Join(root, es[k].name)) && Last(Join(root, es[k].name)) == u;
          EntryFound(es, k);
        }
        if u != "" && IsDir(fs, root + [u]) {
          LookupAppend(fs.root, root, [u]);
          var k := FindIndex(es, u);
          assert Last(Join(root, es[k].name)) == u;
        }
    }
  }

  /** Every user the provider lists has a home that `user_home` finds, and it is a directory. */
  lemma ListedUserHasHome(fs: Fs, platform: Platform, u: string)
    requires WellFormed(fs) && u in Users(fs, platform)
    ensures UserHome(fs, platform, u) == Some(UsersRoot(platform) + [u])
    ensures IsDir(fs, UsersRoot(platform) + [u])
  {
    ListedUsersAreDirectories(fs, platform, u);
  }

  /** No listed username is empty. */
  lemma ListedUsersNonEmpty(fs: Fs, platform: Platform)
    requires WellFormed(fs)
    ensures forall u :: u in Users(fs, platform) ==> u != ""
  {
    forall u | u in Users(fs, platform) {
      ListedUsersAreDirectories(fs, platform, u);
    }
  }
}
