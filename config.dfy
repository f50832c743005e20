/**
 * The organiser's configuration: the extension lists that classify files, the
 * table of localized folder names and the localized error-message templates,
 * with the three lookups the engine uses (`get_localized_dir`,
 * `get_error_message`, `get_file_category`).
 */
module Config {
  import opened Wrappers
  import opened Text

  /**
   * The four categories the organiser sorts into. Every first-match test and
   * every stable tie-break of the source visits them in this order.
   */
  datatype Category = Music | Video | Image | Docs

  /** The label the source uses for a category (`"music"`, `"video"`, ...). */
  function Label(c: Category): string {
    match c
    case Music => "music"
    case Video => "video"
    case Image => "image"
    case Docs => "docs"
  }

  /** The position of a category in the music, video, image, docs order. */
  function Rank(c: Category): nat {
    match c
    case Music => 0
    case Video => 1
    case Image => 2
    case Docs => 3
  }

  /** Six extension lists; only the first four decide where a file goes. */
  datatype FileExtensions = FileExtensions(
    music: seq<string>,
    videos: seq<string>,
    images: seq<string>,
    docs: seq<string>,
    archives: seq<string>,
    code: seq<string>)

  /** The list of a category. */
  function ListOf(ext: FileExtensions, c: Category): seq<string> {
    match c
    case Music => ext.music
    case Video => ext.videos
    case Image => ext.images
    case Docs => ext.docs
  }

  /** `FileExtensions::default`. */
  function DefaultExtensions(): FileExtensions {
    FileExtensions(
      ["mp3", "ogg", "wav", "flac"],
      ["mp4", "avi", "mkv", "mov"],
      ["png", "jpg", "jpeg", "gif"],
      ["pdf", "txt", "epub"],
      ["zip", "rar", "7z"],
      ["rs", "py", "js"])
  }

  /** The two templates a language provides. */
  datatype ErrorMessages = ErrorMessages(emptyUsername: string, userNotFound: string)

  /**
   * The part of `Config` the engine reads: extension lists, localized folder
   * names per language, and error templates per language.
   */
  datatype Config = Config(
    fileExtensions: FileExtensions,
    localizedDirs: map<string, map<string, string>>,
    errorMessages: map<string, ErrorMessages>,
    version: string)

  const UsernamePlaceholder: string := "{username}"

  /** The six logical folder names ("roles") the organiser resolves. */
  const Roles: seq<string> := ["Downloads", "Desktop", "Music", "Videos", "Pictures", "Documents"]

  // The templates are written as concatenations of short pieces; the text is
  // the source's, character for character.
  const EnglishPlease: string := " Please enter" + " a valid username."
  const SpanishPlease: string := " Por favor, ingrese un nombre" + " de usuario válido."
  const EnglishEmptyUsername: string := "Empty username." + EnglishPlease
  const EnglishUserNotFound: string := "User " + UsernamePlaceholder + " not found." + EnglishPlease
  const SpanishEmptyUsername: string := "Usuario vacío." + SpanishPlease
  const SpanishUserNotFound: string := "Usuario " + UsernamePlaceholder + " no encontrado." + SpanishPlease

  /** `Config::default`: English and Spanish folder names and messages. */
  function DefaultConfig(): Config {
    Config(
      DefaultExtensions(),
      map[
        "en" := map[
          "Downloads" := "Downloads", "Desktop" := "Desktop", "Music" := "Music",
          "Videos" := "Videos", "Pictures" := "Pictures", "Documents" := "Documents"],
        "es" := map[
          "Downloads" := "Descargas", "Desktop" := "Escritorio", "Music" := "Música",
          "Videos" := "Vídeos", "Pictures" := "Imágenes", "Documents" := "Documentos"]],
      map[
        "en" := ErrorMessages(EnglishEmptyUsername, EnglishUserNotFound),
        "es" := ErrorMessages(SpanishEmptyUsername, SpanishUserNotFound)],
      "0.3.0")
  }

  /**
   * `get_localized_dir`: the table entry of the language for the role, or the
   * role name itself when either the language or the role is missing.
   */
  function GetLocalizedDir(cfg: Config, lang: string, logicalName: string): (r: string)
    ensures lang in cfg.localizedDirs && logicalName in cfg.localizedDirs[lang] ==>
      r == cfg.localizedDirs[lang][logicalName]
    ensures !(lang in cfg.localizedDirs && logicalName in cfg.localizedDirs[lang]) ==>
      r == logicalName
  {
    if lang in cfg.localizedDirs && logicalName in cfg.localizedDirs[lang] then
      cfg.localizedDirs[lang][logicalName]
    else
      logicalName
  }

  /** With the default table, English names every role by itself, whatever string the role is. */
  lemma EnglishDirsAreRoleNames(logicalName: string)
    ensures GetLocalizedDir(DefaultConfig(), "en", logicalName) == logicalName
  {
  }

  /** With the default table, an unknown language falls back to the English names. */
  lemma UnknownLanguageIsEnglish(lang: string, logicalName: string)
    requires lang != "en" && lang != "es"
    ensures GetLocalizedDir(DefaultConfig(), lang, logicalName) == logicalName
    ensures GetLocalizedDir(DefaultConfig(), lang, logicalName) == GetLocalizedDir(DefaultConfig(), "en", logicalName)
  {
  }

  /** The Spanish names of the default table. */
  lemma SpanishDirs()
    ensures GetLocalizedDir(DefaultConfig(), "es", "Downloads") == "Descargas"
    ensures GetLocalizedDir(DefaultConfig(), "es", "Desktop") == "Escritorio"
    ensures GetLocalizedDir(DefaultConfig(), "es", "Music") == "Música"
    ensures GetLocalizedDir(DefaultConfig(), "es", "Videos") == "Vídeos"
    ensures GetLocalizedDir(DefaultConfig(), "es", "Pictures") == "Imágenes"
    ensures GetLocalizedDir(DefaultConfig(), "es", "Documents") == "Documentos"
    ensures GetLocalizedDir(DefaultConfig(), "fr", "Downloads") == "Downloads"
  {
  }

  /** The template a language's table gives for a key; "" for an unknown key. */
  function MessageFor(m: ErrorMessages, key: string): string {
    if key == "empty_username" then m.emptyUsername
    else if key == "user_not_found" then m.userNotFound
    else ""
  }

  /** The built-in English template used when the language gives none. */
  function FallbackTemplate(key: string): string {
    if key == "empty_username" then EnglishEmptyUsername
    else if key == "user_not_found" then EnglishUserNotFound
    else "Unknown error"
  }

  /**
   * The template `get_error_message` fills in: the language's own when it has
   * a non-empty one for the key, the English fallback otherwise.
   */
  function Template(cfg: Config, lang: string, key: string): (t: string)
    ensures lang in cfg.errorMessages && MessageFor(cfg.errorMessages[lang], key) != "" ==>
      t == MessageFor(cfg.errorMessages[lang], key)
    ensures !(lang in cfg.errorMessages && MessageFor(cfg.errorMessages[lang], key) != "") ==>
      t == FallbackTemplate(key)
  {
    if lang in cfg.errorMessages && MessageFor(cfg.errorMessages[lang], key) != "" then
      MessageFor(cfg.errorMessages[lang], key)
    else
      FallbackTemplate(key)
  }

  /**
   * `get_error_message`: the chosen template with every `{username}` replaced.
   * An unknown key gives "Unknown error"; a template holding the placeholder
   * gives a message holding the username; one without `{` comes out verbatim.
   */
  function GetErrorMessage(cfg: Config, lang: string, key: string, username: string): (r: string)
    ensures key != "empty_username" && key != "user_not_found" ==> r == "Unknown error"
    ensures Contains(Template(cfg, lang, key), UsernamePlaceholder) ==> Contains(r, username)
    ensures '{' !in Template(cfg, lang, key) ==> r == Template(cfg, lang, key)
  {
    FillFacts(Template(cfg, lang, key), username);
    NoBrace("Unknown error");
    ReplaceAll(Template(cfg, lang, key), UsernamePlaceholder, username)
  }

  /** What filling a template does, whether or not it holds the placeholder. */
  lemma FillFacts(t: string, username: string)
    ensures Contains(t, UsernamePlaceholder) ==> Contains(ReplaceAll(t, UsernamePlaceholder, username), username)
    ensures '{' !in t ==> ReplaceAll(t, UsernamePlaceholder, username) == t
  {
    if Contains(t, UsernamePlaceholder) {
      ReplaceAllKeepsReplacement(t, UsernamePlaceholder, username);
    }
    if '{' !in t {
      NoPlaceholder(t, username);
    }
  }

  /** An unknown key gives "Unknown error", whatever the configuration and language. */
  lemma UnknownKeyMessage(cfg: Config, lang: string, key: string, username: string)
    requires key != "empty_username" && key != "user_not_found"
    ensures GetErrorMessage(cfg, lang, key, username) == "Unknown error"
  {
    ReplaceAllSkips("Unknown error", [], UsernamePlaceholder, username);
    assert "Unknown error" + [] == "Unknown error";
  }

  /** A language without templates uses the English wording. */
  lemma MissingLanguageUsesFallback(cfg: Config, lang: string, key: string, username: string)
    requires lang !in cfg.errorMessages
    ensures GetErrorMessage(cfg, lang, key, username) ==
      ReplaceAll(FallbackTemplate(key), UsernamePlaceholder, username)
  {
  }

  /** The templates of the default configuration: Spanish for "es", English for any other language. */
  lemma DefaultTemplates(lang: string)
    ensures Template(DefaultConfig(), lang, "user_not_found") ==
      if lang == "es" then SpanishUserNotFound else EnglishUserNotFound
    ensures Template(DefaultConfig(), lang, "empty_username") ==
      if lang == "es" then SpanishEmptyUsername else EnglishEmptyUsername
  {
  }

  /** The default "user not found" messages, with the name substituted. */
  lemma DefaultUserNotFoundMessage(lang: string, username: string)
    ensures lang == "es" ==>
      GetErrorMessage(DefaultConfig(), lang, "user_not_found", username) ==
      "Usuario " + username + (" no encontrado." + SpanishPlease)
    ensures lang != "es" ==>
      GetErrorMessage(DefaultConfig(), lang, "user_not_found", username) ==
      "User " + username + (" not found." + EnglishPlease)
  {
    DefaultTemplates(lang);
    if lang == "es" {
      SpanishUserNotFoundFilled(username);
    } else {
      EnglishUserNotFoundFilled(username);
    }
  }

  lemma SpanishUserNotFoundFilled(username: string)
    ensures ReplaceAll(SpanishUserNotFound, UsernamePlaceholder, username) ==
      "Usuario " + username + (" no encontrado." + SpanishPlease)
  {
    PiecesHaveNoBrace();
    assert SpanishUserNotFound == "Usuario " + UsernamePlaceholder + (" no encontrado." + SpanishPlease);
    ReplaceSingle("Usuario ", UsernamePlaceholder, " no encontrado." + SpanishPlease, username);
  }

  lemma EnglishUserNotFoundFilled(username: string)
    ensures ReplaceAll(EnglishUserNotFound, UsernamePlaceholder, username) ==
      "User " + username + (" not found." + EnglishPlease)
  {
    PiecesHaveNoBrace();
    assert EnglishUserNotFound == "User " + UsernamePlaceholder + (" not found." + EnglishPlease);
    ReplaceSingle("User ", UsernamePlaceholder, " not found." + EnglishPlease, username);
  }

  /** The default "user not found" message names the user, in every language. */
  lemma UserNotFoundNamesUser(lang: string, username: string)
    ensures Contains(GetErrorMessage(DefaultConfig(), lang, "user_not_found", username), username)
  {
    DefaultUserNotFoundMessage(lang, username);
    assert Contains(username, username) by {
      assert OccursAt(username, username, 0);
      ContainsSlice(username, username, 0);
    }
    if lang == "es" {
      ContainsWithin("Usuario ", username, " no encontrado." + SpanishPlease, username);
    } else {
      ContainsWithin("User ", username, " not found." + EnglishPlease, username);
    }
  }

  /** The default "empty username" messages hold no placeholder and come out verbatim. */
  lemma DefaultEmptyUsernameMessage(lang: string, username: string)
    ensures lang == "es" ==> GetErrorMessage(DefaultConfig(), lang, "empty_username", username) == SpanishEmptyUsername
    ensures lang != "es" ==> GetErrorMessage(DefaultConfig(), lang, "empty_username", username) == EnglishEmptyUsername
  {
    DefaultTemplates(lang);
    PiecesHaveNoBrace();
    NoPlaceholder(EnglishEmptyUsername, username);
    NoPlaceholder(SpanishEmptyUsername, username);
  }

  /** No literal piece of the default templates holds the first character of the placeholder. */
  lemma PiecesHaveNoBrace()
    ensures '{' !in EnglishPlease && '{' !in SpanishPlease
    ensures '{' !in "Empty username." && '{' !in "Usuario vacío."
    ensures '{' !in " not found." && '{' !in " no encontrado." && '{' !in "User " && '{' !in "Usuario "
  {
    NoBrace(" Please enter");
    NoBrace(" a valid username.");
    NoBrace(" Por favor, ingrese un nombre");
    NoBrace(" de usuario válido.");
    NoBrace("Empty username.");
    NoBrace("Usuario vacío.");
    NoBrace(" not found.");
    NoBrace(" no encontrado.");
    NoBrace("User ");
    NoBrace("Usuario ");
  }

  lemma NoBrace(s: string)
    requires forall i :: 0 <= i < |s| ==> s[i] != '{'
    ensures '{' !in s
  {
  }

  /** A template without a placeholder start is its own rendering. */
  lemma NoPlaceholder(t: string, username: string)
    requires '{' !in t
    ensures ReplaceAll(t, UsernamePlaceholder, username) == t
  {
    ReplaceAllSkips(t, [], UsernamePlaceholder, username);
    assert t + [] == t;
  }


  /**
   * First-match classification of an already lower-cased extension over the
   * four lists that decide a target folder, in the order music, video,
   * image, docs.
   */
  function Classify(ext: FileExtensions, e: string): (r: Option<Category>)
    ensures r.Some? ==> e in ListOf(ext, r.value)
    ensures r.Some? ==> forall d :: Rank(d) < Rank(r.value) ==> e !in ListOf(ext, d)
    ensures r.None? <==> forall c :: e !in ListOf(ext, c)
  {
    if e in ext.music then Some(Music)
    else if e in ext.videos then Some(Video)
    else if e in ext.images then Some(Image)
    else if e in ext.docs then Some(Docs)
    else None
  }

  /** No two of the six default lists share an extension. */
  predicate Disjoint(a: seq<string>, b: seq<string>) {
    forall x :: x in a ==> x !in b
  }

  lemma DefaultListsDisjoint()
    ensures Disjoint(DefaultExtensions().music, DefaultExtensions().videos)
    ensures Disjoint(DefaultExtensions().music, DefaultExtensions().images)
    ensures Disjoint(DefaultExtensions().music, DefaultExtensions().docs)
    ensures Disjoint(DefaultExtensions().videos, DefaultExtensions().images)
    ensures Disjoint(DefaultExtensions().videos, DefaultExtensions().docs)
    ensures Disjoint(DefaultExtensions().images, DefaultExtensions().docs)
    ensures Disjoint(DefaultExtensions().music + DefaultExtensions().videos + DefaultExtensions().images +
      DefaultExtensions().docs, DefaultExtensions().archives + DefaultExtensions().code)
    ensures Disjoint(DefaultExtensions().archives, DefaultExtensions().code)
  {
    MusicListDisjoint();
    MediaListsDisjoint();
    OtherListsDisjoint();
  }

  lemma MusicListDisjoint()
    ensures Disjoint(DefaultExtensions().music, DefaultExtensions().videos)
    ensures Disjoint(DefaultExtensions().music, DefaultExtensions().images)
    ensures Disjoint(DefaultExtensions().music, DefaultExtensions().docs)
  {
  }

  lemma MediaListsDisjoint()
    ensures Disjoint(DefaultExtensions().videos, DefaultExtensions().images)
    ensures Disjoint(DefaultExtensions().videos, DefaultExtensions().docs)
    ensures Disjoint(DefaultExtensions().images, DefaultExtensions().docs)
  {
  }

  lemma OtherListsDisjoint()
    ensures Disjoint(DefaultExtensions().music + DefaultExtensions().videos + DefaultExtensions().images +
      DefaultExtensions().docs, DefaultExtensions().archives + DefaultExtensions().code)
    ensures Disjoint(DefaultExtensions().archives, DefaultExtensions().code)
  {
    var x := DefaultExtensions();
    SortingListsAvoidArchives(x.archives + x.code);
  }

  lemma SortingListsAvoidArchives(others: seq<string>)
    requires others == ["zip", "rar", "7z", "rs", "py", "js"]
    ensures Disjoint(DefaultExtensions().music, others) && Disjoint(DefaultExtensions().videos, others)
    ensures Disjoint(DefaultExtensions().images, others) && Disjoint(DefaultExtensions().docs, others)
  {
    DisjointFromOthers(DefaultExtensions().music, others);
    DisjointFromOthers(DefaultExtensions().videos, others);
    DisjointFromOthers(DefaultExtensions().images, others);
    DisjointFromOthers(DefaultExtensions().docs, others);
  }

  lemma DisjointFromOthers(a: seq<string>, others: seq<string>)
    requires others == ["zip", "rar", "7z", "rs", "py", "js"]
    requires forall i :: 0 <= i < |a| ==> |a[i]| >= 3 && a[i] != "zip" && a[i] != "rar"
    ensures Disjoint(a, others)
  {
  }

  /** With the default lists the first-match order does not matter: a category is chosen iff its list holds the extension. */
  lemma DefaultClassifyIff(e: string, c: Category)
    ensures Classify(DefaultExtensions(), e) == Some(c) <==> e in ListOf(DefaultExtensions(), c)
  {
    DefaultListsDisjoint();
  }

  /**
   * `get_file_category`: the label of the first of the six lists, in the order
   * music, video, image, docs, archives, code, that holds the lower-cased
   * extension.
   */
  function GetFileCategory(cfg: Config, extension: string): (r: Option<string>)
    ensures r.Some? ==> r.value in ["music", "video", "image", "docs", "archives", "code"]
  {
    var e := ToLower(extension);
    var x := cfg.fileExtensions;
    if e in x.music then Some("music")
    else if e in x.videos then Some("video")
    else if e in x.images then Some("image")
    else if e in x.docs then Some("docs")
    else if e in x.archives then Some("archives")
    else if e in x.code then Some("code")
    else None
  }

  /** `get_file_category` agrees with the four-list classification, and reports "archives" and "code" only for extensions it leaves unclassified. */
  lemma GetFileCategoryMatchesClassify(cfg: Config, extension: string)
    ensures var e := ToLower(extension);
      match Classify(cfg.fileExtensions, e)
      case Some(c) => GetFileCategory(cfg, extension) == Some(Label(c))
      case None =>
        GetFileCategory(cfg, extension) ==
          if e in cfg.fileExtensions.archives then Some("archives")
          else if e in cfg.fileExtensions.code then Some("code")
          else None
  {
  }

  /** `get_file_category` is `None` exactly when no list holds the lower-cased extension. */
  lemma GetFileCategoryNone(cfg: Config, extension: string)
    ensures var e := ToLower(extension); var x := cfg.fileExtensions;
      GetFileCategory(cfg, extension).None? <==>
        e !in x.music && e !in x.videos && e !in x.images && e !in x.docs && e !in x.archives && e !in x.code
  {
  }

  /** Case folding the argument first changes nothing. */
  lemma GetFileCategoryCaseInsensitive(cfg: Config, extension: string)
    ensures GetFileCategory(cfg, extension) == GetFileCategory(cfg, ToLower(extension))
    ensures GetFileCategory(cfg, extension) == GetFileCategory(cfg, ToUpper(extension))
  {
    ToLowerIdempotent(extension);
    ToLowerOfUpper(extension);
  }

  /** The default classification of some extensions. */
  lemma DefaultCategories()
    ensures GetFileCategory(DefaultConfig(), "mp3") == Some("music")
    ensures GetFileCategory(DefaultConfig(), "MP4") == Some("video")
    ensures GetFileCategory(DefaultConfig(), "png") == Some("image")
    ensures GetFileCategory(DefaultConfig(), "pdf") == Some("docs")
    ensures GetFileCategory(DefaultConfig(), "zip") == Some("archives")
    ensures GetFileCategory(DefaultConfig(), "unknown") == None
  {
    LowerExamples();
    SortedExamples();
    UnsortedExamples();
  }

  lemma SortedExamples()
    ensures var x := DefaultExtensions();
      && "mp3" in x.music
      && "mp4" !in x.music && "mp4" in x.videos
      && "png" !in x.music && "png" !in x.videos && "png" in x.images
      && "pdf" !in x.music && "pdf" !in x.videos && "pdf" !in x.images && "pdf" in x.docs
  {
  }

  lemma UnsortedExamples()
    ensures var x := DefaultExtensions();
      && "zip" !in x.music && "zip" !in x.videos && "zip" !in x.images && "zip" !in x.docs && "zip" in x.archives
      && "unknown" !in x.music && "unknown" !in x.videos && "unknown" !in x.images
      && "unknown" !in x.docs && "unknown" !in x.archives && "unknown" !in x.code
  {
  }

  lemma LowerExamples()
    ensures ToLower("mp3") == "mp3" && ToLower("MP4") == "mp4" && ToLower("png") == "png"
    ensures ToLower("pdf") == "pdf" && ToLower("zip") == "zip" && ToLower("unknown") == "unknown"
  {
    assert ToLower("mp3") == "mp3";
    assert ToLower("MP4") == "mp4";
    assert ToLower("png") == "png";
    assert ToLower("pdf") == "pdf";
    assert ToLower("zip") == "zip";
    assert ToLower("unknown") == "unknown";
  }
}
