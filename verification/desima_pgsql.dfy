/** `desima/pgsql.py`: the package's PostgreSQL installer. When no
    PostgreSQL binaries are found it does nothing at all; otherwise it
    initialises the data directory before rendering any file, and renders
    the PostgreSQL configuration into that data directory. */
module DesimaPgsql {
  import opened Wrappers
  import opened Text
  import opened SiteIds
  import Paths
  import opened Effects
  import opened Hosts
  import opened Templates
  import opened SiteRegistry
  import DesimaUtils
  import SiteLayout

  /** Where PostgreSQL installs its binaries on the usual systems, searched
      after `$PATH`. */
  const BinHints: seq<string> := [
    "/usr/local/pgsql/bin",
    "/usr/lib/postgresql/*/bin",
    "/opt/pgsql-*/bin",
    "/Library/PostgreSQL/*",
    "/Applications/Postgres.app/Contents/MacOS/bin",
    "/opt/local/lib/postgresql*/bin"]

  /** `pgsql_bin_directory()`: the directory holding `postgres`, if any. */
  function BinDirectory(host: Host): Option<string> {
    DesimaUtils.GetBinDirectory(host, "postgres", BinHints)
  }

  function PgsqlConf(dir: string): string {
    Paths.Join(dir, "pgsql.conf")
  }

  /** The tokens `pgsql_install` renders its files with. */
  function PgsqlTokens(cfg: Config, id: string, port: int, dir: string, bin: string): map<string, string> {
    var logdir := SiteLayout.DbSub(dir, "log");
    var rundir := SiteLayout.DbSub(dir, "run");
    map[
      "DAEMON" := Paths.Join(bin, "postgres"),
      "CONFPATH" := PgsqlConf(dir),
      "SITE" := id,
      "RUNDIR" := rundir,
      "LOGDIR" := logdir,
      "LOGFILE" := "pgsql_error.log",
      "LOGPATH" := Paths.Join(logdir, "pgsql_error.log"),
      "SOCKPATH" := Paths.Join(rundir, "pgsqld.sock"),
      "PIDPATH" := Paths.Join(rundir, "pgsqld.pid"),
      "DATADIR" := SiteLayout.DbSub(dir, "data"),
      "PORT" := IntToString(port + 2),
      "USER" := cfg.user,
      "DBDIR" := SiteLayout.DbDir(dir),
      "DIRECTORY" := dir,
      "ID" := IntToString(port)]
  }

  /** The configuration files of the data directory: each template and the
      name it is rendered to. */
  const DataFiles: seq<(string, string)> := [
    ("pgsql/conf.template", "postgresql.conf"),
    ("pgsql/pg_ident.conf.template", "pg_ident.conf"),
    ("pgsql/pg_hba.conf.template", "pg_hba.conf")]

  /** The configuration files, rendered into `db/data` read-only, then the
      three control scripts, also executable. */
  function PgsqlFiles(): seq<FileSpec> {
    seq(|DataFiles|, i requires 0 <= i < |DataFiles| => FileSpec(DataFiles[i].0, "db/data/" + DataFiles[i].1, ReadOnly))
    + SiteLayout.ControlScripts("pgsql", Db, ReadExec)
  }

  /** Row `i` of the file table, for a configuration file. */
  lemma DataRow(i: nat)
    requires i < 3
    ensures |PgsqlFiles()| == 6
    ensures PgsqlFiles()[i] == FileSpec(DataFiles[i].0, "db/data/" + DataFiles[i].1, ReadOnly)
    ensures IsComponent(DataFiles[i].1)
  {
    assert i == 0 || i == 1 || i == 2;
  }

  /** `initdb`, creating the cluster in the data directory for the user. */
  function InitDbCommand(cfg: Config, dir: string, bin: string): Command {
    [Paths.Join(bin, "initdb"), "--pgdata=" + SiteLayout.DbSub(dir, "data"), "--username=" + cfg.user]
  }

  /** What `pgsql_install` does once the binaries are found: the four
      database directories, the checked `initdb`, then the rendered files. */
  function Install(cfg: Config, id: string, port: int, dir: string, bin: string): (plan: Plan)
    ensures |plan| == 11
  {
    MkdirEach(SiteLayout.PackageDbDirs(dir))
    + [Run(InitDbCommand(cfg, dir, bin), true)]
    + DesimaUtils.TemplatesToFiles(cfg, PgsqlFiles(), PgsqlTokens(cfg, id, port, dir, bin), dir)
  }

  /** `pgsql_install(id, port, dir)`: nothing when no `postgres` binary is
      found, the installation otherwise. */
  function PgsqlInstall(cfg: Config, host: Host, id: string, port: int, dir: string): (plan: Plan)
    requires IsValid(id)
    ensures BinDirectory(host).None? <==> |plan| == 0
  {
    match BinDirectory(host)
    case None => []
    case Some(bin) => Install(cfg, id, port, dir, bin)
  }

  /** Without PostgreSQL the installer leaves the machine as it found it,
      and reports nothing. */
  lemma NoBinaryNoEffect(cfg: Config, host: Host, id: string, port: int, dir: string, fails: Command -> bool)
    requires IsValid(id) && BinDirectory(host).None?
    ensures Execute(PgsqlInstall(cfg, host, id, port, dir), fails) == Outcome([], true)
  {
  }

  /** The three parts of the installation, where they sit in the plan. */
  lemma PgsqlParts(cfg: Config, id: string, port: int, dir: string, bin: string)
    ensures var plan := Install(cfg, id, port, dir, bin);
      && plan[..4] == MkdirEach(SiteLayout.PackageDbDirs(dir))
      && plan[4] == Run(InitDbCommand(cfg, dir, bin), true)
      && plan[5..] == DesimaUtils.TemplatesToFiles(cfg, PgsqlFiles(), PgsqlTokens(cfg, id, port, dir, bin), dir)
  {
    var mkdirs := MkdirEach(SiteLayout.PackageDbDirs(dir));
    var writes := DesimaUtils.TemplatesToFiles(cfg, PgsqlFiles(), PgsqlTokens(cfg, id, port, dir, bin), dir);
    Slices3(mkdirs, [Run(InitDbCommand(cfg, dir, bin), true)], writes);
  }

  /** The data directory is initialised before any file is rendered, and
      `initdb` is the only step that can stop the installation. */
  lemma PgsqlOrder(cfg: Config, id: string, port: int, dir: string, bin: string)
    ensures var plan := Install(cfg, id, port, dir, bin);
      && (forall i :: 0 <= i < |plan| ==> (plan[i].Mkdir? <==> i < 4))
      && (forall i :: 0 <= i < |plan| ==> (plan[i].Write? <==> i > 4))
      && (forall i :: 0 <= i < |plan| ==> (MayHalt(plan[i]) <==> i == 4))
  {
    var plan := Install(cfg, id, port, dir, bin);
    forall i | 0 <= i < |plan|
      ensures (plan[i].Mkdir? <==> i < 4) && (plan[i].Write? <==> i > 4) && (MayHalt(plan[i]) <==> i == 4)
    {
      PgsqlStep(cfg, id, port, dir, bin, i);
    }
  }

  /** What kind of step sits at each position. */
  lemma PgsqlStep(cfg: Config, id: string, port: int, dir: string, bin: string, i: nat)
    requires i < 11
    ensures var a := Install(cfg, id, port, dir, bin)[i];
      (a.Mkdir? <==> i < 4) && (a.Write? <==> i > 4) && (MayHalt(a) <==> i == 4)
  {
    var plan := Install(cfg, id, port, dir, bin);
    PgsqlParts(cfg, id, port, dir, bin);
    if i < 4 {
      assert plan[i] == plan[..4][i];
    } else if i > 4 {
      assert plan[i] == plan[5..][i - 5];
    }
  }

  /** The installation runs to the end exactly when `initdb` succeeds. */
  lemma PgsqlCompletes(cfg: Config, id: string, port: int, dir: string, bin: string, fails: Command -> bool)
    ensures Execute(Install(cfg, id, port, dir, bin), fails).completed <==> !fails(InitDbCommand(cfg, dir, bin))
  {
    PgsqlOrder(cfg, id, port, dir, bin);
    PgsqlParts(cfg, id, port, dir, bin);
    CompletesUnlessStepFails(Install(cfg, id, port, dir, bin), 4, fails);
  }

  /** A failing `initdb` leaves the directories and no file. */
  lemma PgsqlInitFails(cfg: Config, id: string, port: int, dir: string, bin: string, fails: Command -> bool)
    requires fails(InitDbCommand(cfg, dir, bin))
    ensures Execute(Install(cfg, id, port, dir, bin), fails).performed
         == MkdirEach(SiteLayout.PackageDbDirs(dir)) + [Run(InitDbCommand(cfg, dir, bin), true)]
  {
    var plan := Install(cfg, id, port, dir, bin);
    PgsqlParts(cfg, id, port, dir, bin);
    assert forall i :: 0 <= i < 4 ==> plan[i] == plan[..4][i];
    StopsAt(plan, fails, 4);
    assert plan[..5] == plan[..4] + [plan[4]];
  }

  /** Step `5 + i` renders row `i` of the file table. */
  lemma PgsqlWrite(cfg: Config, id: string, port: int, dir: string, bin: string, i: nat)
    requires i < 6
    ensures Install(cfg, id, port, dir, bin)[5 + i]
         == DesimaUtils.TemplatesToFiles(cfg, PgsqlFiles(), PgsqlTokens(cfg, id, port, dir, bin), dir)[i]
  {
    PgsqlParts(cfg, id, port, dir, bin);
    assert Install(cfg, id, port, dir, bin)[5 + i] == Install(cfg, id, port, dir, bin)[5..][i];
  }

  /** The three configuration files land in the data directory `initdb`
      initialised, read-only. */
  lemma PgsqlConfigInDataDir(cfg: Config, id: string, port: int, dir: string, bin: string, i: nat)
    requires IsDirPath(dir) && i < 3
    ensures var w := Install(cfg, id, port, dir, bin)[5 + i];
      && Paths.Dirname(w.path) == SiteLayout.DbSub(dir, "data")
      && w.mode == Some(ReadOnly) && !CanWrite(ReadOnly) && !CanExecute(ReadOnly)
  {
    PgsqlWrite(cfg, id, port, dir, bin, i);
    ModeBits();
    DataRow(i);
    var name := DataFiles[i].1;
    DataPath(dir, name);
    SiteLayout.InDbSub(dir, 3, name);
    assert SiteLayout.PackageDbDirs(dir)[3] == SiteLayout.DbSub(dir, "data");
  }

  /** `<dir>/db/data/<name>` is `<name>` joined under the data directory. */
  lemma DataPath(dir: string, name: string)
    requires IsDirPath(dir) && IsComponent(name)
    ensures Paths.Join(dir, "db/data/" + name) == Paths.Join(SiteLayout.DbSub(dir, "data"), name)
  {
    ChildOf(dir, "db");
    ChildOf(SiteLayout.DbDir(dir), "data");
    ChildOf(SiteLayout.DbSub(dir, "data"), name);
    RelativeUnder(dir, "db/data/" + name);
    DataSpelling(dir, name);
  }

  lemma DataSpelling(dir: string, name: string)
    ensures dir + "/" + ("db/data/" + name) == dir + "/" + "db" + "/" + "data" + "/" + name
  {
    assert "db/data/" + name == "db" + "/" + "data" + "/" + name;
  }

  /** The scripts are executable, and each is the one `sdo` runs. */
  lemma PgsqlScript(cfg: Config, id: string, port: int, bin: string, k: nat)
    requires k < 3
    ensures var w := Install(cfg, id, port, SiteDirectory(cfg, id), bin)[8 + k];
      w.path == ScriptPath(cfg, id, Db, SiteLayout.Controls[k]) && w.mode == Some(ReadExec) && CanExecute(ReadExec)
  {
    var files := PgsqlFiles();
    PgsqlWrite(cfg, id, port, SiteDirectory(cfg, id), bin, 3 + k);
    ModeBits();
    assert files[3 + k] == SiteLayout.ControlScripts("pgsql", Db, ReadExec)[k];
    SiteLayout.ControlScriptsAreRun(cfg, id, "pgsql", Db, ReadExec, k);
  }

  /** The database listens two ports above the site's base port, as MySQL
      does, and the daemon is the `postgres` found. */
  lemma PgsqlPortTokens(cfg: Config, id: string, port: int, dir: string, bin: string)
    ensures var t := PgsqlTokens(cfg, id, port, dir, bin);
      && "PORT" in t && "ID" in t && "DAEMON" in t
      && ParseInt(t["PORT"]) == Some(port + 2)
      && ParseInt(t["ID"]) == Some(port)
      && t["DAEMON"] == Paths.Join(bin, "postgres")
  {
    PgsqlTokenValues(cfg, id, port, dir, bin);
    ParseIntRoundTrip(port + 2);
    ParseIntRoundTrip(port);
  }

  lemma PgsqlTokenValues(cfg: Config, id: string, port: int, dir: string, bin: string)
    ensures var t := PgsqlTokens(cfg, id, port, dir, bin);
      && "PORT" in t && "ID" in t && "DAEMON" in t
      && t["PORT"] == IntToString(port + 2) && t["ID"] == IntToString(port)
      && t["DAEMON"] == Paths.Join(bin, "postgres")
  {
  }

  /** The caller's tokens never bind the prelude's name. */
  lemma PgsqlLeavesPrelude(cfg: Config, id: string, port: int, dir: string, bin: string)
    ensures DesimaUtils.PreludeKey !in PgsqlTokens(cfg, id, port, dir, bin)
  {
  }

  /** In any of the six rendered files, `$KEY` becomes the value
      `pgsql_install` bound to `KEY`. */
  lemma PgsqlTokenRendered(cfg: Config, id: string, port: int, dir: string, bin: string, i: nat,
                           key: string, rest: string)
    requires i < 6 && IsIdentifier(key) && key in PgsqlTokens(cfg, id, port, dir, bin)
    requires |rest| == 0 || !IsWordChar(rest[0])
    ensures var c := Install(cfg, id, port, dir, bin)[5 + i].content;
      SafeSubstitute("$" + key + rest, c.tokens) == PgsqlTokens(cfg, id, port, dir, bin)[key] + SafeSubstitute(rest, c.tokens)
  {
    PgsqlWrite(cfg, id, port, dir, bin, i);
    PgsqlLeavesPrelude(cfg, id, port, dir, bin);
    DesimaUtils.TokenRendered(cfg, PgsqlFiles(), PgsqlTokens(cfg, id, port, dir, bin), dir, i, key, rest);
  }

  /** Every destination of the file table is a relative path. */
  lemma PgsqlDestinations()
    ensures forall i :: 0 <= i < |PgsqlFiles()| ==>
      |PgsqlFiles()[i].destination| > 0 && PgsqlFiles()[i].destination[0] != '/'
  {
    var files := PgsqlFiles();
    forall i | 0 <= i < |files|
      ensures |files[i].destination| > 0 && files[i].destination[0] != '/'
    {
      if i >= 3 {
        var c := SiteLayout.Controls[i - 3];
        assert files[i] == SiteLayout.ControlScripts("pgsql", Db, ReadExec)[i - 3];
        assert ScriptName(Db, c)[0] == 'd';
      }
    }
  }

  /** The installation creates its directories parents first and writes
      only inside the directory it is given. */
  lemma PgsqlTree(cfg: Config, host: Host, id: string, port: int, dir: string)
    requires IsValid(id) && IsDirPath(dir)
    ensures ParentsFirst(PgsqlInstall(cfg, host, id, port, dir), dir)
    ensures Confined(PgsqlInstall(cfg, host, id, port, dir), dir)
  {
    if BinDirectory(host).Some? {
      var bin := BinDirectory(host).value;
      var head := MkdirEach(SiteLayout.PackageDbDirs(dir)) + [Run(InitDbCommand(cfg, dir, bin), true)];
      var writes := DesimaUtils.TemplatesToFiles(cfg, PgsqlFiles(), PgsqlTokens(cfg, id, port, dir, bin), dir);
      PgsqlHeadTree(cfg, dir, bin);
      PgsqlDestinations();
      DesimaUtils.RenderedInside(cfg, PgsqlFiles(), PgsqlTokens(cfg, id, port, dir, bin), dir);
      ParentsFirstAppend(head, writes, dir, dir);
      ConfinedAppend(head, writes, dir);
    }
  }

  /** The directories, then `initdb`. */
  lemma PgsqlHeadTree(cfg: Config, dir: string, bin: string)
    requires IsDirPath(dir)
    ensures var head := MkdirEach(SiteLayout.PackageDbDirs(dir)) + [Run(InitDbCommand(cfg, dir, bin), true)];
      ParentsFirst(head, dir) && Confined(head, dir)
  {
    var mkdirs := MkdirEach(SiteLayout.PackageDbDirs(dir));
    var init := [Run(InitDbCommand(cfg, dir, bin), true)];
    MkdirFamily(dir, "db", ["run", "log", "data"]);
    CommandsOnly(init, dir);
    ParentsFirstAppend(mkdirs, init, dir, dir);
    ConfinedAppend(mkdirs, init, dir);
  }
}
