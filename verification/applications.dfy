/** `desima/application.py`: the application archives a site can be
    populated with — how an archive is recognised by its name and named for
    people, which files are offered, and how one is unpacked into a site's
    document root. `desima.py` carries the same naming and extractor table. */
module Applications {
  import opened Wrappers
  import opened Text
  import opened SiteIds
  import Paths
  import opened Effects
  import opened SiteRegistry
  import DesimaUtils
  import SiteLayout

  // ---------------------------------------------------------------------------
  // Names

  /** The suffixes `APPLICATION_FORMAT` accepts, without their leading dot. */
  predicate IsArchiveSuffix(suffix: string) {
    suffix == "tar.gz" || suffix == "tar.bz2" || suffix == "zip"
  }

  /** `f` is `<stem>.<suffix>` with no newline in the stem. */
  predicate NamedWith(f: string, suffix: string) {
    |f| > |suffix| && f[|f| - |suffix| - 1..] == "." + suffix && '\n' !in f[..|f| - |suffix| - 1]
  }

  /** `f` taken apart as `<stem>.<suffix>`, trying each suffix. */
  function SplitArchiveName(f: string): (r: Option<(string, string)>)
    ensures r.Some? ==> IsArchiveSuffix(r.value.1) && '\n' !in r.value.0
    ensures r.Some? ==> f == r.value.0 + "." + r.value.1
  {
    if NamedWith(f, "tar.gz") then Some((f[..|f| - 7], "tar.gz"))
    else if NamedWith(f, "tar.bz2") then Some((f[..|f| - 8], "tar.bz2"))
    else if NamedWith(f, "zip") then Some((f[..|f| - 4], "zip"))
    else None
  }

  /** The match of `APPLICATION_FORMAT`, `^(.*)\.(tar\.gz|tar\.bz2|zip)$`, as
      `(group 1, group 2)`: `.` matches anything but a newline, and `$`
      matches at the very end or just before a final newline. */
  function MatchApplication(f: string): (r: Option<(string, string)>)
    ensures r.Some? ==> IsArchiveSuffix(r.value.1) && '\n' !in r.value.0
    ensures r.Some? ==> f == r.value.0 + "." + r.value.1 || f == r.value.0 + "." + r.value.1 + "\n"
  {
    var whole := SplitArchiveName(f);
    if whole.Some? then whole
    else if |f| > 0 && f[|f| - 1] == '\n' then SplitArchiveName(f[..|f| - 1])
    else None
  }

  lemma SplitBuiltName(stem: string, suffix: string)
    requires IsArchiveSuffix(suffix) && '\n' !in stem
    ensures SplitArchiveName(stem + "." + suffix) == Some((stem, suffix))
  {
    var f := stem + "." + suffix;
    assert f[..|stem|] == stem;
    assert f[|stem|..] == "." + suffix;
    assert f[|f| - 1] == suffix[|suffix| - 1];
    if suffix == "tar.bz2" {
      assert !NamedWith(f, "tar.gz") by {
        assert f[|f| - 1] == '2';
      }
    } else if suffix == "zip" {
      assert !NamedWith(f, "tar.gz") && !NamedWith(f, "tar.bz2") by {
        assert f[|f| - 1] == 'p';
      }
    }
  }

  /** Every `<stem>.<suffix>` with a newline-free stem matches, with the stem
      as group 1 and the suffix as group 2; so does the same name followed by
      one newline. */
  lemma MatchBuiltName(stem: string, suffix: string)
    requires IsArchiveSuffix(suffix) && '\n' !in stem
    ensures MatchApplication(stem + "." + suffix) == Some((stem, suffix))
    ensures MatchApplication(stem + "." + suffix + "\n") == Some((stem, suffix))
  {
    SplitBuiltName(stem, suffix);
    var g := stem + "." + suffix + "\n";
    assert g[|g| - 1] == '\n';
    assert SplitArchiveName(g).None?;
    assert g[..|g| - 1] == stem + "." + suffix;
  }

  /** `capwords(stem.replace('-', ' ').replace('_', ' '))`: the name shown
      for an archive. It holds neither `-` nor `_`, is single-spaced, and
      its words are the capitalized words of the stem. */
  function HumanName(stem: string): (name: string)
    ensures '-' !in name && '_' !in name
    ensures SingleSpaced(name)
    ensures var ws := Words(ReplaceChar(ReplaceChar(stem, '-', ' '), '_', ' '));
      Words(name) == seq(|ws|, k requires 0 <= k < |ws| => Capitalize(ws[k]))
    ensures forall k :: 0 <= k < |Words(name)| ==> IsCapitalized(Words(name)[k])
  {
    var spaced := ReplaceChar(ReplaceChar(stem, '-', ' '), '_', ' ');
    var ws := Words(spaced);
    assert '-' !in spaced && '_' !in spaced;
    forall k | 0 <= k < |ws|
      ensures IsCapitalized(Capitalize(ws[k]))
    {
      CapitalizeWord(ws[k]);
    }
    CapWords(spaced)
  }

  /** `extract_application(filename, base_dir)`: None when the name does not
      match; otherwise the human name of group 1 and the archive's path. */
  function ExtractApplication(filename: string, baseDir: string): (r: Option<(string, string)>)
    ensures r.None? <==> MatchApplication(filename).None?
    ensures r.Some? ==> r.value.1 == Paths.Join(baseDir, filename)
    ensures r.Some? ==> r.value.0 == HumanName(MatchApplication(filename).value.0)
  {
    match MatchApplication(filename)
    case None => None
    case Some((stem, _)) => Some((HumanName(stem), Paths.Join(baseDir, filename)))
  }

  /** One entry of `listdir(BASE/application)` and whether it is a regular file. */
  datatype FileEntry = FileEntry(name: string, isFile: bool)

  function ApplicationDir(cfg: Config): string {
    Paths.Join(cfg.base, "application")
  }

  /** `list_applications`: the named archives among the regular files of the
      application directory, in listing order. */
  function ListApplications(cfg: Config, entries: seq<FileEntry>): (apps: seq<(string, string)>)
    ensures |apps| <= |entries|
    ensures forall a :: a in apps <==>
      exists e :: e in entries && e.isFile && ExtractApplication(e.name, ApplicationDir(cfg)) == Some(a)
    decreases |entries|
  {
    if |entries| == 0 then []
    else
      var e := entries[0];
      var rest := ListApplications(cfg, entries[1..]);
      assert forall x :: x in entries <==> x == e || x in entries[1..];
      var found := ExtractApplication(e.name, ApplicationDir(cfg));
      if e.isFile && found.Some? then [found.value] + rest else rest
  }

  // ---------------------------------------------------------------------------
  // Unpacking

  /** One row of the extractor table: command, mode option, and the option
      naming the target directory. */
  datatype Extractor = Extractor(cmd: string, opt: string, destFlag: string)

  /** The extractor table, keyed by `splitext` extension. */
  function ExtractorFor(ext: string): (r: Option<Extractor>)
    ensures r.Some? <==> ext == ".gz" || ext == ".bz2" || ext == ".zip"
    ensures r.Some? ==> (r.value.cmd == "tar" <==> ext != ".zip")
  {
    if ext == ".gz" then Some(Extractor("tar", "xzf", "--directory"))
    else if ext == ".bz2" then Some(Extractor("tar", "xjf", "--directory"))
    else if ext == ".zip" then Some(Extractor("unzip", "-q", "-d"))
    else None
  }

  /** An archive whose name the listing accepts is unpacked by the tool for
      its format: gzip'd tar with `z`, bzip2'd tar with `j`, zip with unzip
      — provided its stem ends in an ordinary character. */
  lemma ArchiveNameSelectsExtractor(stem: string, suffix: string)
    requires IsArchiveSuffix(suffix)
    requires |stem| > 0 && stem[|stem| - 1] != '/' && stem[|stem| - 1] != '.'
    ensures var x := ExtractorFor(Paths.Extension(stem + "." + suffix));
      && x.Some?
      && (suffix == "tar.gz" ==> x.value == Extractor("tar", "xzf", "--directory"))
      && (suffix == "tar.bz2" ==> x.value == Extractor("tar", "xjf", "--directory"))
      && (suffix == "zip" ==> x.value == Extractor("unzip", "-q", "-d"))
  {
    if suffix == "zip" {
      ExtensionOfArchive(stem, "", "zip");
      assert stem + "" == stem;
    } else if suffix == "tar.gz" {
      TarExtension(stem, suffix, "gz");
    } else {
      TarExtension(stem, suffix, "bz2");
    }
  }

  lemma TarExtension(stem: string, suffix: string, ext: string)
    requires |stem| > 0 && stem[|stem| - 1] != '/' && stem[|stem| - 1] != '.'
    requires ext == "gz" || ext == "bz2"
    requires suffix == "tar." + ext
    ensures Paths.Extension(stem + "." + suffix) == "." + ext
  {
    ExtensionOfArchive(stem, ".tar", ext);
    assert stem + ".tar" + "." + ext == stem + "." + suffix;
  }

  /** `<stem><middle>.<ext>` has extension `.<ext>` when the name before the
      last dot ends in an ordinary character. */
  lemma ExtensionOfArchive(stem: string, middle: string, ext: string)
    requires |stem| > 0 && stem[|stem| - 1] != '/' && stem[|stem| - 1] != '.'
    requires middle == "" || middle == ".tar"
    requires ext == "gz" || ext == "bz2" || ext == "zip"
    ensures Paths.Extension(stem + middle + "." + ext) == "." + ext
  {
    var base := stem + middle;
    assert base[|base| - 1] == if middle == "" then stem[|stem| - 1] else 'r';
    Paths.ExtensionOfSuffix(base, ext);
  }

  /** A hidden `.zip` is listed, as an application with an empty name... */
  lemma HiddenZipListed()
    ensures ExtractApplication(".zip", "/app") == Some(("", "/app/.zip"))
  {
    HiddenZipMatches();
    EmptyHumanName();
    assert Paths.Join("/app", ".zip") == "/app/.zip";
  }

  lemma HiddenZipMatches()
    ensures MatchApplication(".zip") == Some(("", "zip"))
  {
    MatchBuiltName("", "zip");
    assert "" + "." + "zip" == ".zip";
  }

  lemma EmptyHumanName()
    ensures HumanName("") == ""
  {
    assert ReplaceChar(ReplaceChar("", '-', ' '), '_', ' ') == "";
    assert Words("") == [];
    assert CapWords("") == Join([], " ") == "";
  }

  /** ...yet its `splitext` extension is empty, so no extractor serves it
      and installing it fails the extension assertion. */
  lemma HiddenZipNotInstallable()
    ensures Paths.Extension("/app/.zip") == ""
    ensures ExtractorFor(Paths.Extension("/app/.zip")).None?
  {
    var p := "/app/.zip";
    assert p[4] == '/' && p[5] == '.';
    assert forall k :: 4 < k < |p| ==> p[k] != '/';
    assert forall k :: 5 < k < |p| ==> p[k] != '.';
    assert Paths.LastIndexOf(p, '/') == 4;
    assert Paths.LastIndexOf(p, '.') == 5;
  }

  function WwwDir(cfg: Config, id: string): string {
    SiteLayout.WwwDir(SiteDirectory(cfg, id))
  }

  function DocDir(cfg: Config, id: string): string {
    Paths.Join(WwwDir(cfg, id), "doc")
  }

  /** The effects of unpacking once the root directory is known: an archive
      without a root is unpacked straight into `www/doc`; one with a root is
      unpacked into `www`, then `www/doc` is removed and the root renamed to
      `www/doc`. */
  function ExtractPlan(cfg: Config, id: string, file: string, root: Option<string>): (plan: Plan)
    requires ExtractorFor(Paths.Extension(file)).Some?
    ensures |plan| >= 1 && plan[0].Run? && plan[0].checked && |plan[0].argv| == 5
    ensures var x := ExtractorFor(Paths.Extension(file)).value;
      plan[0].argv[..4] == [x.cmd, x.opt, file, x.destFlag]
    ensures root.None? <==> plan[0].argv[4] == DocDir(cfg, id)
    ensures root.None? ==> |plan| == 1
    ensures root.Some? ==>
      && plan[0].argv[4] == WwwDir(cfg, id) && |plan| == 3
      && plan[1] == Rmdir(DocDir(cfg, id))
      && plan[2] == Rename(Paths.Join(WwwDir(cfg, id), root.value), DocDir(cfg, id))
  {
    var x := ExtractorFor(Paths.Extension(file)).value;
    var www := WwwDir(cfg, id);
    var doc := DocDir(cfg, id);
    assert www != doc by {
      assert |doc| > |www|;
    }
    var destination := if root.None? then doc else www;
    [Run([x.cmd, x.opt, file, x.destFlag, destination], true)]
    + (if root.Some? then [Rmdir(doc), Rename(Paths.Join(www, root.value), doc)] else [])
  }

  /** `application_install(id, file)`: an extension other than `.gz`, `.bz2`
      and `.zip` fails the assertion before any effect; otherwise the
      extension picks the extractor and the package's root detection picks
      the layout, and an archive whose member list makes that detection
      raise stops before any effect. `archive` lists the members of a zip
      or tar file, None for any other file. */
  function ApplicationInstall(cfg: Config, id: string, file: string, archive: Option<seq<string>>): (plan: Plan)
    requires IsValid(id)
    ensures ExtractorFor(Paths.Extension(file)).None? <==> plan == [Crash("AssertionError")]
    ensures ExtractorFor(Paths.Extension(file)).Some? ==>
      (DesimaUtils.RootDirectory(archive).Failure? <==> plan == [Crash("IndexError")])
    ensures ExtractorFor(Paths.Extension(file)).Some? && DesimaUtils.RootDirectory(archive).Success? ==>
      plan == ExtractPlan(cfg, id, file, DesimaUtils.RootDirectory(archive).value)
  {
    if ExtractorFor(Paths.Extension(file)).None? then [Crash("AssertionError")]
    else
      match DesimaUtils.RootDirectory(archive)
      case Failure(e) => [Crash(e)]
      case Success(root) => ExtractPlan(cfg, id, file, root)
  }
}
