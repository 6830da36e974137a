/** `desima/mysql.py`: the package's MySQL installer. Compared with
    `desima.py` it renders with `string.Template`, keeps the data in its own
    `db/data` directory, and reads the user creation script from a
    template. */
module DesimaMysql {
  import opened Wrappers
  import opened Text
  import opened SiteIds
  import Paths
  import opened Effects
  import opened Templates
  import opened SiteRegistry
  import DesimaUtils
  import SiteLayout
  import Desima

  function MysqlConf(dir: string): string {
    Paths.Join(dir, "mysql.conf")
  }

  // ---------------------------------------------------------------------------
  // The default user

  const CreateTemplate: string := "mysql/create.template"

  /** The database, the user and the password are all named after the site. */
  function UserTokens(id: string): map<string, string> {
    map["DATABASE" := id, "USER" := id, "PASSWORD" := id]
  }

  /** `mysql_create_user(id, conf)`: start the database, feed the rendered
      script to the client, stop the database. Nothing in it is checked. */
  function CreateUser(cfg: Config, id: string, conf: string): (plan: Plan)
    requires IsValid(id)
    ensures |plan| == 3 && NeverHalts(plan)
  {
    [ Sdo(cfg, Start, Db, id, 0).step,
      Feed(Desima.MysqlClient(conf), Substituted(TemplatePath(cfg, CreateTemplate), UserTokens(id))),
      Sdo(cfg, Stop, Db, id, 0).step ]
  }

  /** Whatever the start or the client do, the database is stopped again. */
  lemma CreateUserStopAlwaysIssued(cfg: Config, id: string, conf: string, fails: Command -> bool)
    requires IsValid(id)
    ensures Execute(CreateUser(cfg, id, conf), fails).completed
    ensures Run([ScriptPath(cfg, id, Db, Stop)], false) in Execute(CreateUser(cfg, id, conf), fails).performed
  {
    NeverHaltsCompletes(CreateUser(cfg, id, conf), fails);
    assert CreateUser(cfg, id, conf)[2] == Run([ScriptPath(cfg, id, Db, Stop)], false);
  }

  /** In the user creation script `$DATABASE`, `$USER` and `$PASSWORD`
      become the site identifier. */
  lemma UserScriptNamesSite(cfg: Config, id: string, conf: string, key: string, rest: string)
    requires IsValid(id)
    requires key == "DATABASE" || key == "USER" || key == "PASSWORD"
    requires |rest| == 0 || !IsWordChar(rest[0])
    ensures var input := CreateUser(cfg, id, conf)[1].input;
      && input.template == TemplatePath(cfg, CreateTemplate)
      && SafeSubstitute("$" + key + rest, input.tokens) == id + SafeSubstitute(rest, input.tokens)
  {
    DesimaUtils.TokenNameIsIdentifier(key);
    SafeSubstituteNamed(key, UserTokens(id), rest);
  }

  /** The script is rendered with `safe_substitute` alone, not through
      `templates_to_files`: a `$BASHPRELUDE` in it is left as it is. */
  lemma UserScriptWithoutPrelude(cfg: Config, id: string, conf: string, rest: string)
    requires IsValid(id)
    requires |rest| == 0 || !IsWordChar(rest[0])
    ensures var input := CreateUser(cfg, id, conf)[1].input;
      SafeSubstitute("$" + DesimaUtils.PreludeKey + rest, input.tokens)
        == "$" + DesimaUtils.PreludeKey + SafeSubstitute(rest, input.tokens)
  {
    DesimaUtils.PreludeKeyIsIdentifier();
    SafeSubstituteNamed(DesimaUtils.PreludeKey, UserTokens(id), rest);
  }

  // ---------------------------------------------------------------------------
  // Installation

  /** The tokens `mysql_install` renders its files with; the integers are
      turned into text by the rendering. */
  function MysqlTokens(cfg: Config, id: string, port: int, dir: string): map<string, string> {
    var logdir := SiteLayout.DbSub(dir, "log");
    var rundir := SiteLayout.DbSub(dir, "run");
    map[
      "DAEMON" := Desima.BinPath(cfg, "mysqld"),
      "CONFPATH" := MysqlConf(dir),
      "SITE" := id,
      "LOGDIR" := logdir,
      "LOGFILE" := "mysql_error.log",
      "LOGPATH" := Paths.Join(logdir, "mysql_error.log"),
      "SOCKPATH" := Paths.Join(rundir, "mysqld.sock"),
      "PIDPATH" := Paths.Join(rundir, "mysqld.pid"),
      "DATADIR" := SiteLayout.DbSub(dir, "data"),
      "PORT" := IntToString(port + 2),
      "USER" := cfg.user,
      "DBDIR" := SiteLayout.DbDir(dir),
      "DIRECTORY" := dir,
      "ID" := IntToString(port)]
  }

  /** The configuration, read-only, then the three control scripts, also
      executable. */
  function MysqlFiles(): seq<FileSpec> {
    [FileSpec("mysql/conf.template", "mysql.conf", ReadOnly)] + SiteLayout.ControlScripts("mysql", Db, ReadExec)
  }

  function InstallDbCommand(cfg: Config, dir: string): Command {
    [Desima.BinPath(cfg, "mysql_install_db"), "--defaults-file=" + MysqlConf(dir)]
  }

  /** `mysql_install(id, port, dir)`: the four database directories, the
      rendered files, the checked system table installation, then the user
      creation. */
  function MysqlInstall(cfg: Config, id: string, port: int, dir: string): (plan: Plan)
    requires IsValid(id)
    ensures |plan| == 12
  {
    MkdirEach(SiteLayout.PackageDbDirs(dir))
    + DesimaUtils.TemplatesToFiles(cfg, MysqlFiles(), MysqlTokens(cfg, id, port, dir), dir)
    + [Run(InstallDbCommand(cfg, dir), true)]
    + CreateUser(cfg, id, MysqlConf(dir))
  }

  /** The four parts of the installation, where they sit in the plan. */
  lemma MysqlParts(cfg: Config, id: string, port: int, dir: string)
    requires IsValid(id)
    ensures var plan := MysqlInstall(cfg, id, port, dir);
      && plan[..4] == MkdirEach(SiteLayout.PackageDbDirs(dir))
      && plan[4..8] == DesimaUtils.TemplatesToFiles(cfg, MysqlFiles(), MysqlTokens(cfg, id, port, dir), dir)
      && plan[8] == Run(InstallDbCommand(cfg, dir), true)
      && plan[9..] == CreateUser(cfg, id, MysqlConf(dir))
  {
    var mkdirs := MkdirEach(SiteLayout.PackageDbDirs(dir));
    var writes := DesimaUtils.TemplatesToFiles(cfg, MysqlFiles(), MysqlTokens(cfg, id, port, dir), dir);
    var user := CreateUser(cfg, id, MysqlConf(dir));
    Slices4(mkdirs, writes, [Run(InstallDbCommand(cfg, dir), true)], user);
  }

  /** The order of the installation: directories, then files, then the
      system tables, whose installation is the only step that can stop it;
      the database is started only after every file is written. */
  lemma MysqlOrder(cfg: Config, id: string, port: int, dir: string)
    requires IsValid(id)
    ensures var plan := MysqlInstall(cfg, id, port, dir);
      && (forall i :: 0 <= i < |plan| ==> (plan[i].Mkdir? <==> i < 4))
      && (forall i :: 0 <= i < |plan| ==> (plan[i].Write? <==> 4 <= i < 8))
      && (forall i :: 0 <= i < |plan| ==> (MayHalt(plan[i]) <==> i == 8))
  {
    var plan := MysqlInstall(cfg, id, port, dir);
    forall i | 0 <= i < |plan|
      ensures (plan[i].Mkdir? <==> i < 4) && (plan[i].Write? <==> 4 <= i < 8) && (MayHalt(plan[i]) <==> i == 8)
    {
      MysqlStep(cfg, id, port, dir, i);
    }
  }

  /** What kind of step sits at each position. */
  lemma MysqlStep(cfg: Config, id: string, port: int, dir: string, i: nat)
    requires IsValid(id) && i < 12
    ensures var a := MysqlInstall(cfg, id, port, dir)[i];
      (a.Mkdir? <==> i < 4) && (a.Write? <==> 4 <= i < 8) && (MayHalt(a) <==> i == 8)
  {
    var plan := MysqlInstall(cfg, id, port, dir);
    MysqlParts(cfg, id, port, dir);
    if i < 4 {
      assert plan[i] == plan[..4][i];
    } else if i < 8 {
      assert plan[i] == plan[4..8][i - 4];
    } else if i > 8 {
      assert plan[i] == plan[9..][i - 9];
      assert !MayHalt(CreateUser(cfg, id, MysqlConf(dir))[i - 9]);
    }
  }

  /** The installation runs to the end exactly when the system tables
      install; when they do not, the directories and files stay behind. */
  lemma MysqlCompletes(cfg: Config, id: string, port: int, dir: string, fails: Command -> bool)
    requires IsValid(id)
    ensures Execute(MysqlInstall(cfg, id, port, dir), fails).completed <==> !fails(InstallDbCommand(cfg, dir))
  {
    MysqlOrder(cfg, id, port, dir);
    MysqlParts(cfg, id, port, dir);
    CompletesUnlessStepFails(MysqlInstall(cfg, id, port, dir), 8, fails);
  }

  /** Each rendered file is the one of the file table, written with its
      rights: the configuration cannot be executed, the scripts can, and
      each script is the one `sdo` runs. */
  lemma MysqlModes(cfg: Config, id: string, port: int)
    requires IsValid(id)
    ensures var dir := SiteDirectory(cfg, id);
      var plan := MysqlInstall(cfg, id, port, dir);
      && plan[4].path == Paths.Join(dir, "mysql.conf") && plan[4].mode == Some(ReadOnly)
      && !CanExecute(ReadOnly)
      && (forall k :: 0 <= k < 3 ==>
            plan[5 + k].path == ScriptPath(cfg, id, Db, SiteLayout.Controls[k]) && plan[5 + k].mode == Some(ReadExec))
      && CanExecute(ReadExec)
  {
    var dir := SiteDirectory(cfg, id);
    MysqlParts(cfg, id, port, dir);
    ModeBits();
    var plan := MysqlInstall(cfg, id, port, dir);
    var files := MysqlFiles();
    forall k | 0 <= k < 3
      ensures plan[5 + k].path == ScriptPath(cfg, id, Db, SiteLayout.Controls[k]) && plan[5 + k].mode == Some(ReadExec)
    {
      assert plan[5 + k] == plan[4..8][1 + k];
      assert files[1 + k] == SiteLayout.ControlScripts("mysql", Db, ReadExec)[k];
      SiteLayout.ControlScriptsAreRun(cfg, id, "mysql", Db, ReadExec, k);
    }
  }

  /** The database listens two ports above the site's base port, and the
      base port serves as the server id. */
  lemma MysqlPortTokens(cfg: Config, id: string, port: int, dir: string)
    ensures var t := MysqlTokens(cfg, id, port, dir);
      && "PORT" in t && "ID" in t && "SITE" in t
      && ParseInt(t["PORT"]) == Some(port + 2)
      && ParseInt(t["ID"]) == Some(port)
      && t["SITE"] == id
  {
    MysqlTokenValues(cfg, id, port, dir);
    ParseIntRoundTrip(port + 2);
    ParseIntRoundTrip(port);
  }

  lemma MysqlTokenValues(cfg: Config, id: string, port: int, dir: string)
    ensures var t := MysqlTokens(cfg, id, port, dir);
      && "PORT" in t && "ID" in t && "SITE" in t
      && t["PORT"] == IntToString(port + 2) && t["ID"] == IntToString(port) && t["SITE"] == id
  {
  }

  /** Every file the script templates name for the running server lies in a
      directory the installation creates. */
  lemma MysqlRuntimePaths(cfg: Config, id: string, port: int, dir: string)
    requires IsDirPath(dir)
    ensures var t := MysqlTokens(cfg, id, port, dir);
      && "LOGPATH" in t && "SOCKPATH" in t && "PIDPATH" in t && "DATADIR" in t
      && Paths.Dirname(t["LOGPATH"]) in SiteLayout.PackageDbDirs(dir)
      && Paths.Dirname(t["SOCKPATH"]) in SiteLayout.PackageDbDirs(dir)
      && Paths.Dirname(t["PIDPATH"]) in SiteLayout.PackageDbDirs(dir)
      && t["DATADIR"] in SiteLayout.PackageDbDirs(dir)
  {
    MysqlPathTokens(cfg, id, port, dir);
    var dirs := SiteLayout.PackageDbDirs(dir);
    assert dirs[1] == SiteLayout.DbSub(dir, "run");
    assert dirs[2] == SiteLayout.DbSub(dir, "log");
    assert dirs[3] == SiteLayout.DbSub(dir, "data");
    SiteLayout.InDbSub(dir, 1, "mysqld.sock");
    SiteLayout.InDbSub(dir, 1, "mysqld.pid");
    SiteLayout.InDbSub(dir, 2, "mysql_error.log");
  }

  lemma MysqlPathTokens(cfg: Config, id: string, port: int, dir: string)
    ensures var t := MysqlTokens(cfg, id, port, dir);
      && "LOGPATH" in t && "SOCKPATH" in t && "PIDPATH" in t && "DATADIR" in t
      && t["LOGPATH"] == Paths.Join(SiteLayout.DbSub(dir, "log"), "mysql_error.log")
      && t["SOCKPATH"] == Paths.Join(SiteLayout.DbSub(dir, "run"), "mysqld.sock")
      && t["PIDPATH"] == Paths.Join(SiteLayout.DbSub(dir, "run"), "mysqld.pid")
      && t["DATADIR"] == SiteLayout.DbSub(dir, "data")
  {
  }

  /** The caller's tokens never bind the prelude's name, so the caller's
      value is the one rendered. */
  lemma MysqlLeavesPrelude(cfg: Config, id: string, port: int, dir: string)
    ensures DesimaUtils.PreludeKey !in MysqlTokens(cfg, id, port, dir)
  {
  }

  /** In any of the four rendered files, `$KEY` becomes the value
      `mysql_install` bound to `KEY`. */
  lemma MysqlTokenRendered(cfg: Config, id: string, port: int, dir: string, i: nat, key: string, rest: string)
    requires i < 4 && key in MysqlTokens(cfg, id, port, dir) && IsIdentifier(key)
    requires |rest| == 0 || !IsWordChar(rest[0])
    ensures var c := DesimaUtils.TemplatesToFiles(cfg, MysqlFiles(), MysqlTokens(cfg, id, port, dir), dir)[i].content;
      SafeSubstitute("$" + key + rest, c.tokens) == MysqlTokens(cfg, id, port, dir)[key] + SafeSubstitute(rest, c.tokens)
  {
    MysqlLeavesPrelude(cfg, id, port, dir);
    DesimaUtils.TokenRendered(cfg, MysqlFiles(), MysqlTokens(cfg, id, port, dir), dir, i, key, rest);
  }

  /** The installation creates its directories parents first and writes
      only inside the directory it is given. */
  lemma MysqlTree(cfg: Config, id: string, port: int, dir: string)
    requires IsValid(id) && IsDirPath(dir)
    ensures ParentsFirst(MysqlInstall(cfg, id, port, dir), dir)
    ensures Confined(MysqlInstall(cfg, id, port, dir), dir)
  {
    var files := MkdirEach(SiteLayout.PackageDbDirs(dir))
      + DesimaUtils.TemplatesToFiles(cfg, MysqlFiles(), MysqlTokens(cfg, id, port, dir), dir);
    var user := CreateUser(cfg, id, MysqlConf(dir));
    var rest := [Run(InstallDbCommand(cfg, dir), true)] + user;
    MysqlFilesTree(cfg, id, port, dir);
    assert forall i :: 1 <= i < |rest| ==> rest[i] == user[i - 1];
    CommandsOnly(rest, dir);
    ParentsFirstAppend(files, rest, dir, dir);
    ConfinedAppend(files, rest, dir);
    AppendAssoc(files, [Run(InstallDbCommand(cfg, dir), true)], user);
  }

  /** The directories, then the rendered files. */
  lemma MysqlFilesTree(cfg: Config, id: string, port: int, dir: string)
    requires IsDirPath(dir)
    ensures var files := MkdirEach(SiteLayout.PackageDbDirs(dir))
      + DesimaUtils.TemplatesToFiles(cfg, MysqlFiles(), MysqlTokens(cfg, id, port, dir), dir);
      ParentsFirst(files, dir) && Confined(files, dir)
  {
    var mkdirs := MkdirEach(SiteLayout.PackageDbDirs(dir));
    var writes := DesimaUtils.TemplatesToFiles(cfg, MysqlFiles(), MysqlTokens(cfg, id, port, dir), dir);
    MkdirFamily(dir, "db", ["run", "log", "data"]);
    MysqlDestinations();
    DesimaUtils.RenderedInside(cfg, MysqlFiles(), MysqlTokens(cfg, id, port, dir), dir);
    ParentsFirstAppend(mkdirs, writes, dir, dir);
    ConfinedAppend(mkdirs, writes, dir);
  }

  /** Every destination of the file table is a relative path. */
  lemma MysqlDestinations()
    ensures forall i :: 0 <= i < |MysqlFiles()| ==>
      |MysqlFiles()[i].destination| > 0 && MysqlFiles()[i].destination[0] != '/'
  {
    var files := MysqlFiles();
    forall i | 0 <= i < |files|
      ensures |files[i].destination| > 0 && files[i].destination[0] != '/'
    {
      if i > 0 {
        var c := SiteLayout.Controls[i - 1];
        assert files[i] == SiteLayout.ControlScripts("mysql", Db, ReadExec)[i - 1];
        assert ScriptName(Db, c)[0] == 'd';
      }
    }
  }
}
