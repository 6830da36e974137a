/** `desima.py`: the monolithic installer. A site `id` gets the directory
    `BASE/site-<id>` holding a `PORT` file, a MySQL instance rendered from
    `***KEY***` templates, an Apache instance rendered the same way, and
    optionally an application unpacked into its document root. The registry
    conventions it shares with the package are in module SiteRegistry. */
module Desima {
  import opened Wrappers
  import opened Text
  import opened SiteIds
  import Paths
  import Ports
  import opened Effects
  import opened Hosts
  import opened Templates
  import opened SiteRegistry
  import Applications
  import DesimaUtils
  import SiteLayout

  // ---------------------------------------------------------------------------
  // Layout of a site directory

  function DbDir(cfg: Config, id: string): string {
    SiteLayout.DbDir(SiteDirectory(cfg, id))
  }

  function DbRunDir(cfg: Config, id: string): string {
    Paths.Join(DbDir(cfg, id), "run")
  }

  function DbLogDir(cfg: Config, id: string): string {
    Paths.Join(DbDir(cfg, id), "log")
  }

  /** `db`, `db/run`, `db/log`, in creation order. */
  function DbDirs(cfg: Config, id: string): seq<string> {
    [DbDir(cfg, id)] + Children(DbDir(cfg, id), ["run", "log"])
  }

  function MysqlConf(cfg: Config, id: string): string {
    Paths.Join(SiteDirectory(cfg, id), "mysql.conf")
  }

  function WwwDir(cfg: Config, id: string): string {
    SiteLayout.WwwDir(SiteDirectory(cfg, id))
  }

  function WwwSub(cfg: Config, id: string, name: string): string {
    Paths.Join(WwwDir(cfg, id), name)
  }

  function ApacheConf(cfg: Config, id: string): string {
    Paths.Join(SiteDirectory(cfg, id), "apache2.conf")
  }

  /** `BASE/bin/<exe>`. */
  function BinPath(cfg: Config, exe: string): string {
    Paths.Join3(cfg.base, "bin", exe)
  }

  // ---------------------------------------------------------------------------
  // Tags

  /** `str(n)` never holds the `*` a tag is made of. */
  lemma NumeralHasNoStar(n: int)
    ensures '*' !in IntToString(n)
  {
    if n < 0 {
      var d := NatToString(-n);
      assert forall k :: 1 <= k < |IntToString(n)| ==> IntToString(n)[k] == d[k - 1];
    }
  }

  /** A longer tag cannot occur inside a shorter one. */
  lemma MarkerTooLong(key: string, other: string)
    requires |other| > |key|
    ensures !Occurs(Marker(key), Marker(other))
  {
  }

  /** A tag of the same length differing at position `i` does not occur either. */
  lemma MarkerDiffers(key: string, other: string, i: nat)
    requires |other| == |key| && i < |key| && other[i] != key[i]
    ensures !Occurs(Marker(key), Marker(other))
  {
    var m := Marker(key);
    var o := Marker(other);
    forall j | 0 <= j <= |m|
      ensures !OccursAt(m, o, j)
    {
      if j == 0 {
        assert m[0..|o|][3 + i] == m[3 + i] != o[3 + i];
      }
    }
  }

  /** The tags `install_mysql` renders its four files with, values already
      passed through `str`. */
  function MysqlTags(cfg: Config, id: string, port: int): seq<(string, string)>
  {
    var tags := [
      ("MYSQLD", BinPath(cfg, "mysqld")),
      ("MYSQLCONF", MysqlConf(cfg, id)),
      ("SITE", id),
      ("LOGFILE", Paths.Join(DbLogDir(cfg, id), "mysqld.log")),
      ("PIDFILE", Paths.Join(DbRunDir(cfg, id), "mysqld.pid")),
      ("PORT", IntToString(port + 2)),
      ("USER", cfg.user),
      ("DIRECTORY", SiteDirectory(cfg, id)),
      ("ID", IntToString(port))
    ];
    tags
  }

  /** In a MySQL template, `***PORT***` renders as the database port and
      `***ID***` as the site's base port, each readable back with `int`. */
  lemma MysqlPortTagsRendered(cfg: Config, id: string, port: int)
    ensures GenerateConfiguration(Marker("PORT"), MysqlTags(cfg, id, port)) == IntToString(Ports.DbPort(port))
    ensures ParseInt(GenerateConfiguration(Marker("PORT"), MysqlTags(cfg, id, port))) == Some(Ports.DbPort(port))
    ensures GenerateConfiguration(Marker("ID"), MysqlTags(cfg, id, port)) == IntToString(port)
    ensures ParseInt(GenerateConfiguration(Marker("ID"), MysqlTags(cfg, id, port))) == Some(port)
  {
    var tags := MysqlTags(cfg, id, port);
    assert tags[5] == ("PORT", IntToString(port + 2)) && tags[8] == ("ID", IntToString(port));
    MarkerTooLong("PORT", "MYSQLD");
    MarkerTooLong("PORT", "MYSQLCONF");
    MarkerDiffers("PORT", "SITE", 0);
    MarkerTooLong("PORT", "LOGFILE");
    MarkerTooLong("PORT", "PIDFILE");
    NumeralHasNoStar(port + 2);
    RenderSingleTag("PORT", tags, 5);
    forall j | 0 <= j < 8
      ensures !Occurs(Marker("ID"), Marker(tags[j].0))
    {
      MarkerTooLong("ID", tags[j].0);
    }
    NumeralHasNoStar(port);
    RenderSingleTag("ID", tags, 8);
    ParseIntRoundTrip(port + 2);
    ParseIntRoundTrip(port);
  }

  /** The tags `install_apache2` renders its four files with. */
  function ApacheTags(cfg: Config, id: string, port: int): seq<(string, string)>
  {
    var tags := [
      ("SERVERROOT", WwwDir(cfg, id)),
      ("SERVERNAME", cfg.user + "-" + id),
      ("HTTP_PORT", IntToString(port)),
      ("HTTPS_PORT", IntToString(port + 1)),
      ("USER", cfg.user),
      ("GROUP", cfg.user),
      ("LOCKDIR", WwwSub(cfg, id, "lock")),
      ("PIDFILE", Paths.Join(WwwSub(cfg, id, "run"), "apache.pid")),
      ("LOGDIR", WwwSub(cfg, id, "log")),
      ("SITE", id),
      ("APACHECONF", ApacheConf(cfg, id))
    ];
    tags
  }

  /** `***HTTP_PORT***` is not a substring of `***HTTPS_PORT***`. */
  lemma HttpTagNotInHttpsTag()
    ensures !Occurs(Marker("HTTPS_PORT"), Marker("HTTP_PORT"))
  {
    var s := Marker("HTTPS_PORT");
    var m := Marker("HTTP_PORT");
    forall i | 0 <= i <= |s|
      ensures !OccursAt(s, m, i)
    {
      if i == 0 {
        assert s[i..i + |m|][7] == s[7] != m[7];
      } else if i == 1 {
        assert s[i..i + |m|][2] == s[3] != m[2];
      }
    }
  }

  /** In an Apache template, `***HTTP_PORT***` and `***HTTPS_PORT***` render
      as the first two ports of the site's block. */
  lemma ApachePortTagsRendered(cfg: Config, id: string, port: int)
    ensures GenerateConfiguration(Marker("HTTP_PORT"), ApacheTags(cfg, id, port)) == IntToString(Ports.HttpPort(port))
    ensures GenerateConfiguration(Marker("HTTPS_PORT"), ApacheTags(cfg, id, port)) == IntToString(Ports.HttpsPort(port))
    ensures ParseInt(GenerateConfiguration(Marker("HTTPS_PORT"), ApacheTags(cfg, id, port))) == Some(Ports.HttpsPort(port))
  {
    var tags := ApacheTags(cfg, id, port);
    assert tags[2] == ("HTTP_PORT", IntToString(port)) && tags[3] == ("HTTPS_PORT", IntToString(port + 1));
    MarkerTooLong("HTTP_PORT", "SERVERROOT");
    MarkerTooLong("HTTP_PORT", "SERVERNAME");
    NumeralHasNoStar(port);
    RenderSingleTag("HTTP_PORT", tags, 2);
    MarkerDiffers("HTTPS_PORT", "SERVERROOT", 0);
    MarkerDiffers("HTTPS_PORT", "SERVERNAME", 0);
    HttpTagNotInHttpsTag();
    NumeralHasNoStar(port + 1);
    RenderSingleTag("HTTPS_PORT", tags, 3);
    ParseIntRoundTrip(port + 1);
  }

  // ---------------------------------------------------------------------------
  // MySQL

  /** The statements `create_default_user` feeds to the client: a database,
      a user and a password all named after the site. */
  function DefaultUserStatements(id: string): seq<string> {
    [ "CREATE DATABASE " + id + ";",
      "GRANT ALL ON " + id + ".* TO " + id + "@127.0.0.1 IDENTIFIED BY '" + id + "';",
      "FLUSH PRIVILEGES;" ]
  }

  /** The script: the statements joined by newlines, with a final newline. */
  function DefaultUserScript(id: string): string {
    Join(DefaultUserStatements(id) + [""], "\n")
  }

  /** For an identifier without newline the script splits back into its
      statements, one per line, followed by the empty text after the final
      newline. */
  lemma DefaultUserScriptLines(id: string)
    requires '\n' !in id
    ensures Split(DefaultUserScript(id), '\n') == DefaultUserStatements(id) + [""]
  {
    StatementsOneLineEach(id);
    SplitJoin(DefaultUserStatements(id) + [""], '\n');
  }

  lemma StatementsOneLineEach(id: string)
    requires '\n' !in id
    ensures var parts := DefaultUserStatements(id) + [""];
      forall k :: 0 <= k < |parts| ==> '\n' !in parts[k]
  {
    var parts := DefaultUserStatements(id) + [""];
    assert '\n' !in parts[0];
    assert '\n' !in parts[1];
    assert '\n' !in parts[2];
  }

  /** The client invocation that reads the script. */
  function MysqlClient(conf: string): Command {
    ["mysql", "--defaults-file=" + conf, "--user=root"]
  }

  /** The script encodes as ASCII exactly when the identifier does: the
      text around it is ASCII. */
  lemma DefaultUserScriptAscii(id: string)
    ensures IsAscii(DefaultUserScript(id)) <==> IsAscii(id)
  {
    if IsAscii(id) {
      StatementsAscii(id);
      JoinAscii(DefaultUserStatements(id) + [""], "\n");
    } else {
      ScriptStartsWithId(id);
    }
  }

  /** The script starts with the identifier's database creation, so a
      non-ASCII identifier makes it non-ASCII. */
  lemma ScriptStartsWithId(id: string)
    requires !IsAscii(id)
    ensures !IsAscii(DefaultUserScript(id))
  {
    var st := DefaultUserStatements(id);
    var rest := Join((st + [""])[1..], "\n");
    assert DefaultUserScript(id) == st[0] + ("\n" + rest);
    AsciiConcat(st[0], "\n" + rest);
    AsciiConcat("CREATE DATABASE " + id, ";");
    AsciiConcat("CREATE DATABASE ", id);
  }

  /** For an ASCII identifier every statement is ASCII. */
  lemma StatementsAscii(id: string)
    requires IsAscii(id)
    ensures forall k :: 0 <= k < |DefaultUserStatements(id) + [""]| ==> IsAscii((DefaultUserStatements(id) + [""])[k])
  {
    var parts := DefaultUserStatements(id) + [""];
    CreateAscii(id);
    GrantAscii(id);
    FlushAscii();
    assert IsAscii(parts[0]) && IsAscii(parts[1]) && IsAscii(parts[2]) && IsAscii(parts[3]);
  }

  lemma CreateAscii(id: string)
    requires IsAscii(id)
    ensures IsAscii("CREATE DATABASE " + id + ";")
  {
    AsciiConcat("CREATE DATABASE ", id);
    AsciiConcat("CREATE DATABASE " + id, ";");
  }

  lemma GrantAscii(id: string)
    requires IsAscii(id)
    ensures IsAscii("GRANT ALL ON " + id + ".* TO " + id + "@127.0.0.1 IDENTIFIED BY '" + id + "';")
  {
    GrantWordsAscii();
    ChainAscii("GRANT ALL ON ", id, ".* TO ", "@127.0.0.1 IDENTIFIED BY '", "';");
  }

  lemma GrantWordsAscii()
    ensures IsAscii("GRANT ALL ON ") && IsAscii(".* TO ") && IsAscii("@127.0.0.1 IDENTIFIED BY '") && IsAscii("';")
  {
  }

  /** The grant statement's shape, with ASCII pieces, is ASCII. */
  lemma ChainAscii(g: string, id: string, to: string, ident: string, end: string)
    requires IsAscii(g) && IsAscii(id) && IsAscii(to) && IsAscii(ident) && IsAscii(end)
    ensures IsAscii(g + id + to + id + ident + id + end)
  {
    AsciiConcat(g, id);
    AsciiConcat(g + id, to);
    AsciiConcat(g + id + to, id);
    AsciiConcat(g + id + to + id, ident);
    AsciiConcat(g + id + to + id + ident, id);
    AsciiConcat(g + id + to + id + ident + id, end);
  }

  lemma FlushAscii()
    ensures IsAscii("FLUSH PRIVILEGES;") && IsAscii("")
  {
  }

  /** The exception `bytes(script, 'ASCII')` raises on a non-ASCII script. */
  const EncodeError: string := "UnicodeEncodeError"

  /** `create_default_user`: start the database, feed the script to the
      client, stop the database. Nothing in it is checked, so the stop is
      issued whatever the start or the client did. A non-ASCII identifier
      makes the encoding of the script raise once the database is started
      and the client launched, and the stop is then never reached. */
  function CreateDefaultUser(cfg: Config, id: string, conf: string): (plan: Plan)
    ensures |plan| == 3 && plan[0] == Sdo(cfg, Start, Db, id, 0).step
    ensures forall i :: 0 <= i < |plan| ==> !plan[i].Write? && !plan[i].Mkdir?
    ensures IsAscii(id) ==>
      && NeverHalts(plan)
      && plan[1] == Feed(MysqlClient(conf), Literal(DefaultUserScript(id)))
      && plan[2] == Sdo(cfg, Stop, Db, id, 0).step
    ensures !IsAscii(id) ==> plan[1] == Run(MysqlClient(conf), false) && plan[2] == Crash(EncodeError)
  {
    DefaultUserScriptAscii(id);
    var start := Sdo(cfg, Start, Db, id, 0).step;
    var stop := Sdo(cfg, Stop, Db, id, 0).step;
    var script := DefaultUserScript(id);
    if IsAscii(script) then
      [start, Feed(MysqlClient(conf), Literal(script)), stop]
    else
      [start, Run(MysqlClient(conf), false), Crash(EncodeError)]
  }

  /** Running the user creation reaches the stop of the database exactly
      when the identifier is ASCII; otherwise the run ends at the encoding
      error, with the database started. */
  lemma DefaultUserStopIssued(cfg: Config, id: string, conf: string, fails: Command -> bool)
    ensures var o := Execute(CreateDefaultUser(cfg, id, conf), fails);
      && o.performed == CreateDefaultUser(cfg, id, conf)
      && (o.completed <==> IsAscii(id))
      && (Run([ScriptPath(cfg, id, Db, Stop)], false) in o.performed <==> IsAscii(id))
      && Run([ScriptPath(cfg, id, Db, Start)], false) in o.performed
  {
    var plan := CreateDefaultUser(cfg, id, conf);
    var stop := Run([ScriptPath(cfg, id, Db, Stop)], false);
    assert plan[0] == Run([ScriptPath(cfg, id, Db, Start)], false);
    if IsAscii(id) {
      NeverHaltsCompletes(plan, fails);
      assert plan[2] == stop;
    } else {
      assert !Halts(plan[0], fails) && !Halts(plan[1], fails) && Halts(plan[2], fails);
      StopsAt(plan, fails, 2);
      assert plan[..3] == plan;
      ScriptPathsDistinct(cfg, id, Db, Start, Db, Stop);
      assert plan[0] != stop && plan[1] != stop && plan[2] != stop;
    }
  }

  /** `template_to_file` for each `(template, destination, rights)` of a
      file table, in order: `<dir>/<destination>` rendered from
      `BASE/template/<template>` with the tags, then given `rights`. */
  function TemplateToFiles(cfg: Config, dir: string, files: seq<FileSpec>, tags: seq<(string, string)>): (plan: Plan)
    ensures |plan| == |files|
    ensures forall i :: 0 <= i < |files| ==>
      plan[i] == Write(Paths.Join(dir, files[i].destination), Tagged(TemplatePath(cfg, files[i].template), tags),
                       Some(files[i].mode))
  {
    seq(|files|, i requires 0 <= i < |files| =>
      Write(Paths.Join(dir, files[i].destination), Tagged(TemplatePath(cfg, files[i].template), tags), Some(files[i].mode)))
  }

  /** The file table of one server: its configuration, read-only, then its
      `start`, `stop` and `isrunning` scripts, read-and-execute. */
  function FileTable(confTemplate: string, confName: string, scriptPrefix: string, server: Server): seq<FileSpec> {
    [ FileSpec(confTemplate, confName, ReadOnly),
      FileSpec(ScriptTemplate(scriptPrefix, Start), ScriptName(server, Start), ReadExec),
      FileSpec(ScriptTemplate(scriptPrefix, Stop), ScriptName(server, Stop), ReadExec),
      FileSpec(ScriptTemplate(scriptPrefix, IsRunning), ScriptName(server, IsRunning), ReadExec) ]
  }

  /** `<prefix>.<action>.template`, as `mysql.start.template`. */
  function ScriptTemplate(prefix: string, c: Control): string {
    prefix + "." + ControlName(c) + ".template"
  }

  /** Position of a control script in a file table. */
  function ControlIndex(c: Control): (k: nat)
    ensures 1 <= k <= 3
  {
    match c
    case Start => 1
    case Stop => 2
    case IsRunning => 3
  }

  /** A control script's name never ends the way a configuration file's does. */
  lemma ScriptNameIsNotConf(d: string, s: Server, c: Control, confName: string)
    requires confName == "mysql.conf" || confName == "apache2.conf"
    ensures ScriptName(s, c) != confName
    ensures Paths.Join(d, ScriptName(s, c)) != Paths.Join(d, confName)
  {
    var n := ScriptName(s, c);
    assert n[|n| - 1] == ControlName(c)[|ControlName(c)| - 1];
    Paths.JoinLast(d, n);
    Paths.JoinLast(d, confName);
  }

  /** A file table gives the configuration read-only and every control
      script read-and-execute: all are readable, none writable, and exactly
      the scripts executable. */
  lemma FileTableModes(confTemplate: string, confName: string, prefix: string, server: Server)
    requires confName == "mysql.conf" || confName == "apache2.conf"
    ensures var files := FileTable(confTemplate, confName, prefix, server);
      forall i :: 0 <= i < |files| ==>
        && CanRead(files[i].mode) && !CanWrite(files[i].mode)
        && (CanExecute(files[i].mode) <==> files[i].destination != confName)
  {
    var files := FileTable(confTemplate, confName, prefix, server);
    ModeBits();
    forall i | 1 <= i < 4
      ensures files[i].destination != confName
    {
      var c := if i == 1 then Start else if i == 2 then Stop else IsRunning;
      assert files[i].destination == ScriptName(server, c);
      ScriptNameIsNotConf("", server, c, confName);
    }
  }

  /** Each control script of the server is rendered, read-and-execute, from
      `<prefix>.<action>.template` into its place in the site directory. */
  lemma ServerScriptsRendered(cfg: Config, id: string, confTemplate: string, confName: string, prefix: string,
                              server: Server, tags: seq<(string, string)>, c: Control)
    ensures var w := TemplateToFiles(cfg, SiteDirectory(cfg, id), FileTable(confTemplate, confName, prefix, server), tags);
      w[ControlIndex(c)] == Write(ScriptPath(cfg, id, server, c),
                                  Tagged(TemplatePath(cfg, ScriptTemplate(prefix, c)), tags),
                                  Some(ReadExec))
  {
    match c
    case Start =>
    case Stop =>
    case IsRunning =>
  }

  /** Within the site directory, the path written is the configuration's
      exactly when the table row is the configuration's, so the modes of the
      table carry over to the files by path. */
  lemma ServerFilesRendered(cfg: Config, id: string, confTemplate: string, confName: string, prefix: string,
                            server: Server, tags: seq<(string, string)>)
    requires confName == "mysql.conf" || confName == "apache2.conf"
    ensures var w := TemplateToFiles(cfg, SiteDirectory(cfg, id), FileTable(confTemplate, confName, prefix, server), tags);
      forall i :: 0 <= i < |w| ==>
        && w[i].Write? && w[i].content == Tagged(w[i].content.template, tags)
        && w[i].mode.Some? && CanRead(w[i].mode.value) && !CanWrite(w[i].mode.value)
        && (CanExecute(w[i].mode.value) <==> w[i].path != Paths.Join(SiteDirectory(cfg, id), confName))
  {
    var d := SiteDirectory(cfg, id);
    FileTableModes(confTemplate, confName, prefix, server);
    forall c: Control {
      ScriptNameIsNotConf(d, server, c, confName);
    }
  }

  /** `install_mysql`'s file table. */
  function MysqlFiles(): seq<FileSpec> {
    FileTable("mysql.conf.template", "mysql.conf", "mysql", Db)
  }

  /** `mysql_install_db --defaults-file=<conf>`. */
  function InstallDbCommand(cfg: Config, id: string): Command {
    [BinPath(cfg, "mysql_install_db"), "--defaults-file=" + MysqlConf(cfg, id)]
  }

  /** `install_mysql(id, port, dir)` step by step: create `db`, `db/run`,
      `db/log`; render the four files; initialise the system tables; create
      the default user. */
  function MysqlPlan(cfg: Config, id: string, port: int): (plan: Plan)
    ensures |plan| == 11
    ensures plan[..3] == MkdirEach(DbDirs(cfg, id))
    ensures plan[3..7] == TemplateToFiles(cfg, SiteDirectory(cfg, id), MysqlFiles(), MysqlTags(cfg, id, port))
    ensures plan[7] == Run(InstallDbCommand(cfg, id), true)
    ensures plan[8..] == CreateDefaultUser(cfg, id, MysqlConf(cfg, id))
  {
    var mkdirs := MkdirEach(DbDirs(cfg, id));
    var writes := TemplateToFiles(cfg, SiteDirectory(cfg, id), MysqlFiles(), MysqlTags(cfg, id, port));
    var user := CreateDefaultUser(cfg, id, MysqlConf(cfg, id));
    assert |mkdirs| == 3 && |writes| == 4 && |user| == 3;
    Slices4(mkdirs, writes, [Run(InstallDbCommand(cfg, id), true)], user);
    mkdirs + writes + [Run(InstallDbCommand(cfg, id), true)] + user
  }

  /** The order of the MySQL installation: every file is rendered before
      `mysql_install_db` reads the configuration, and that command is the
      only step that can stop the installation besides the encoding error
      a non-ASCII identifier ends it with; otherwise the last step stops
      the database. */
  lemma MysqlOrder(cfg: Config, id: string, port: int)
    ensures var plan := MysqlPlan(cfg, id, port);
      && (forall i :: 0 <= i < |plan| && plan[i].Write? ==> i < 7)
      && (forall i :: 0 <= i < |plan| ==> (MayHalt(plan[i]) <==> i == 7 || (i == 10 && !IsAscii(id))))
      && plan[7].argv == InstallDbCommand(cfg, id)
      && (IsAscii(id) ==> plan[|plan| - 1] == Run([ScriptPath(cfg, id, Db, Stop)], false))
      && (!IsAscii(id) ==> plan[|plan| - 1] == Crash(EncodeError))
  {
    var plan := MysqlPlan(cfg, id, port);
    assert forall i :: 0 <= i < 3 ==> plan[i] == plan[..3][i];
    assert forall i :: 3 <= i < 7 ==> plan[i] == plan[3..7][i - 3];
    assert forall i :: 8 <= i < 11 ==> plan[i] == plan[8..][i - 8];
  }

  /** The MySQL installation completes exactly when the system tables are
      initialised and the identifier is ASCII. */
  lemma MysqlCompletesUnlessInstallDbFails(cfg: Config, id: string, port: int, fails: Command -> bool)
    ensures Execute(MysqlPlan(cfg, id, port), fails).completed <==> !fails(InstallDbCommand(cfg, id)) && IsAscii(id)
  {
    MysqlOrder(cfg, id, port);
    if IsAscii(id) {
      CompletesUnlessStepFails(MysqlPlan(cfg, id, port), 7, fails);
    } else {
      assert Halts(MysqlPlan(cfg, id, port)[10], fails);
    }
  }

  // ---------------------------------------------------------------------------
  // Apache

  /** `www`, `www/log`, `www/lock`, `www/run`, `www/doc`, in creation order. */
  function WwwDirs(cfg: Config, id: string): seq<string> {
    SiteLayout.WwwDirs(SiteDirectory(cfg, id))
  }

  /** The configuration template for an Apache version. */
  function ApacheConfTemplate(version: string): string {
    "apache" + version + ".conf.template"
  }

  /** `install_apache2`'s file table for an Apache version. */
  function ApacheFiles(version: string): seq<FileSpec> {
    FileTable(ApacheConfTemplate(version), "apache2.conf", "apache2", Www)
  }

  /** `install_apache2(id, port, dir)` step by step: create the five `www`
      directories; ask `apache2 -v` for the version; render the four files,
      the configuration from that version's template. */
  function ApachePlan(cfg: Config, host: Host, id: string, port: int): (plan: Plan)
    ensures |plan| == 10
    ensures plan[..5] == MkdirEach(WwwDirs(cfg, id))
    ensures plan[5] == Run(VersionCommand, true)
    ensures plan[6..] == TemplateToFiles(cfg, SiteDirectory(cfg, id), ApacheFiles(ApacheVersion(host.apacheBanner)),
                                         ApacheTags(cfg, id, port))
  {
    var mkdirs := MkdirEach(WwwDirs(cfg, id));
    var writes := TemplateToFiles(cfg, SiteDirectory(cfg, id), ApacheFiles(ApacheVersion(host.apacheBanner)),
                                  ApacheTags(cfg, id, port));
    Slices3(mkdirs, [Run(VersionCommand, true)], writes);
    mkdirs + [Run(VersionCommand, true)] + writes
  }

  /** The order of the Apache installation: the version is asked for before
      any file is rendered, and that query is the only step that can stop
      the installation. */
  lemma ApacheOrder(cfg: Config, host: Host, id: string, port: int)
    ensures var plan := ApachePlan(cfg, host, id, port);
      && (forall i :: 0 <= i < |plan| && plan[i].Write? ==> i > 5)
      && (forall i :: 0 <= i < |plan| ==> (MayHalt(plan[i]) <==> i == 5))
  {
    var plan := ApachePlan(cfg, host, id, port);
    assert forall i :: 0 <= i < 5 ==> plan[i] == plan[..5][i];
    assert forall i :: 6 <= i < 10 ==> plan[i] == plan[6..][i - 6];
  }

  /** The 2.2 configuration template is chosen exactly when `apache2 -v`
      names a 2.2 release, the 2.4 one otherwise. */
  lemma ApacheTemplateChoice(banner: string)
    ensures ApacheConfTemplate(ApacheVersion(banner)) == "apache2.2.conf.template" <==> Occurs(banner, "Apache/2.2.")
    ensures ApacheConfTemplate(ApacheVersion(banner)) == "apache2.4.conf.template" <==> !Occurs(banner, "Apache/2.2.")
  {
    var t := ApacheConfTemplate(ApacheVersion(banner));
    assert "apache2.2.conf.template"[8] != "apache2.4.conf.template"[8];
    if Occurs(banner, "Apache/2.2.") {
      assert t == "apache2.2.conf.template";
    } else {
      assert t == "apache2.4.conf.template";
    }
  }

  // ---------------------------------------------------------------------------
  // Applications

  /** `get_root_directory` of `desima.py`. `archive` lists the member names
      of a zip or tar file, None for any other file. The root is the first
      member, kept only when it ends with `/` and every member starts with
      it. An empty archive or an empty first name raises IndexError. */
  function RootDirectory(archive: Option<seq<string>>): (r: Result<Option<string>, string>)
    ensures archive.None? ==> r == Success(None)
    ensures r.Failure? <==> archive.Some? && (|archive.value| == 0 || |archive.value[0]| == 0)
    ensures r.Success? && r.value.Some? <==>
      && archive.Some? && |archive.value| > 0
      && EndsWith(archive.value[0], "/")
      && (forall k :: 0 <= k < |archive.value| ==> StartsWith(archive.value[k], archive.value[0]))
    ensures r.Success? && r.value.Some? ==> r.value.value == archive.value[0]
  {
    match archive
    case None => Success(None)
    case Some(ms) =>
      if |ms| == 0 || |ms[0]| == 0 then Failure("IndexError")
      else if ms[0][|ms[0]| - 1] != '/' then Success(None)
      else if AllStartWith(ms, ms[0]) then Success(Some(ms[0]))
      else Success(None)
  }

  /** Where this detection finds a root, the package's finds the same one;
      the two fail on the same archives. */
  lemma RootDirectoryRefinedByPackage(archive: Option<seq<string>>)
    ensures RootDirectory(archive).Failure? <==> DesimaUtils.RootDirectory(archive).Failure?
    ensures RootDirectory(archive).Success? && RootDirectory(archive).value.Some? ==>
      DesimaUtils.RootDirectory(archive) == RootDirectory(archive)
  {
  }

  /** ... but not the other way round: the package takes a one-file archive
      as rooted where this version does not. */
  lemma RootDirectoriesDiffer()
    ensures RootDirectory(Some(["index.html"])) == Success(None)
    ensures DesimaUtils.RootDirectory(Some(["index.html"])) == Success(Some("index.html/"))
  {
    assert "index.html"[|"index.html"| - 1] == 'l';
    DesimaUtils.SingleFileRoot();
  }

  /** `install_application(id, file)`: an extension other than `.gz`,
      `.bz2` and `.zip` fails the assertion before any effect; otherwise the
      extension picks the extractor, this module's root detection picks the
      layout, and an archive whose member list makes the detection raise
      stops before any effect. */
  function InstallApplication(cfg: Config, id: string, file: string, archive: Option<seq<string>>): (plan: Plan)
    ensures |plan| >= 1
    ensures Applications.ExtractorFor(Paths.Extension(file)).None? <==> plan == [Crash("AssertionError")]
    ensures Applications.ExtractorFor(Paths.Extension(file)).Some? ==>
      (RootDirectory(archive).Failure? <==> plan == [Crash("IndexError")])
    ensures Applications.ExtractorFor(Paths.Extension(file)).Some? && RootDirectory(archive).Success? ==>
      plan == Applications.ExtractPlan(cfg, id, file, RootDirectory(archive).value)
  {
    if Applications.ExtractorFor(Paths.Extension(file)).None? then [Crash("AssertionError")]
    else
      match RootDirectory(archive)
      case Failure(e) => [Crash(e)]
      case Success(root) => Applications.ExtractPlan(cfg, id, file, root)
  }

  // ---------------------------------------------------------------------------
  // Site lifecycle

  /** An application archive handed to `install_site`: its path, and the
      member names of the zip or tar file it is (None for any other file). */
  datatype Archive = Archive(file: string, members: Option<seq<string>>)

  /** The site directory, then its `PORT` file. */
  function SiteHead(cfg: Config, id: string, port: int): Plan {
    [Mkdir(SiteDirectory(cfg, id)), Write(PortFilePath(cfg, id), Literal(PortFileContent(port)), None)]
  }

  lemma SiteHeadNeverHalts(cfg: Config, id: string, port: int)
    ensures |SiteHead(cfg, id, port)| == 2 && NeverHalts(SiteHead(cfg, id, port))
  {
  }

  /** The application part of an installation: nothing without an archive. */
  function ApplicationPlan(cfg: Config, id: string, app: Option<Archive>): (plan: Plan)
    ensures app.None? <==> |plan| == 0
  {
    if app.None? then [] else InstallApplication(cfg, id, app.value.file, app.value.members)
  }

  /** The effects of `install_site` once the checks have passed: the site
      directory and its `PORT` file, MySQL, Apache, then the application. */
  function InstallPlan(cfg: Config, host: Host, id: string, port: int, app: Option<Archive>): (plan: Plan)
    ensures |plan| == 23 + |ApplicationPlan(cfg, id, app)|
    ensures plan[0] == Mkdir(SiteDirectory(cfg, id))
  {
    SiteHead(cfg, id, port) + MysqlPlan(cfg, id, port) + ApachePlan(cfg, host, id, port) + ApplicationPlan(cfg, id, app)
  }

  lemma InstallPlanHead(cfg: Config, host: Host, id: string, port: int, app: Option<Archive>)
    ensures var plan := InstallPlan(cfg, host, id, port, app);
      |plan| >= 23 && plan[..2] == SiteHead(cfg, id, port)
  {
    Slices4(SiteHead(cfg, id, port), MysqlPlan(cfg, id, port), ApachePlan(cfg, host, id, port), ApplicationPlan(cfg, id, app));
  }

  lemma InstallPlanServers(cfg: Config, host: Host, id: string, port: int, app: Option<Archive>)
    ensures var plan := InstallPlan(cfg, host, id, port, app);
      && |plan| >= 23
      && plan[2..13] == MysqlPlan(cfg, id, port)
      && plan[13..23] == ApachePlan(cfg, host, id, port)
  {
    Slices4(SiteHead(cfg, id, port), MysqlPlan(cfg, id, port), ApachePlan(cfg, host, id, port), ApplicationPlan(cfg, id, app));
  }

  lemma InstallPlanApplication(cfg: Config, host: Host, id: string, port: int, app: Option<Archive>)
    ensures var plan := InstallPlan(cfg, host, id, port, app);
      |plan| >= 23 && plan[23..] == ApplicationPlan(cfg, id, app)
  {
    Slices4(SiteHead(cfg, id, port), MysqlPlan(cfg, id, port), ApachePlan(cfg, host, id, port), ApplicationPlan(cfg, id, app));
  }

  /** What `install_site(id, port, file)` does to the registry: an invalid
      identifier or an existing site is rejected before anything is
      created; otherwise the site joins the registry with its port, both
      servers stopped and the control scripts its installation wrote, and
      no other site changes. */
  function Register(reg: Registry, id: string, port: int, scripts: set<Script>): (r: Result<Registry, SiteError>)
    ensures !IsValid(id) ==> r == Failure(InvalidSiteId)
    ensures IsValid(id) && id in reg ==> r == Failure(AlreadyExists)
    ensures IsValid(id) && id !in reg ==> r.Success?
    ensures r.Success? ==> id in r.value && r.value[id] == Site(port, false, false, scripts)
    ensures r.Success? ==> forall other :: other != id ==>
      (other in r.value <==> other in reg)
      && (other in reg ==> r.value[other] == reg[other])
  {
    if !IsValid(id) then Failure(InvalidSiteId)
    else if id in reg then Failure(AlreadyExists)
    else Success(reg[id := Site(port, false, false, scripts)])
  }

  /** `install_site(id, port, file)`: the checks and registry change of
      Register, with the effects of InstallPlan when they pass. Whatever
      the plan gets through, the site stays registered (nothing is rolled
      back), holding the control scripts the performed steps wrote. */
  function InstallSite(cfg: Config, reg: Registry, host: Host, id: string, port: int, app: Option<Archive>,
                       fails: Command -> bool): (r: Result<Transition, SiteError>)
    ensures !IsValid(id) ==> r == Failure(InvalidSiteId)
    ensures IsValid(id) && id in reg ==> r == Failure(AlreadyExists)
    ensures r.Success? <==> IsValid(id) && id !in reg
    ensures r.Success? ==>
      r.value.registry == reg[id := Site(port, false, false, ScriptsWritten(cfg, id, Execute(r.value.plan, fails).performed))]
    ensures r.Success? ==> |r.value.plan| >= 23 && r.value.plan[0] == Mkdir(SiteDirectory(cfg, id))
    ensures r.Success? ==> r.value.plan == InstallPlan(cfg, host, id, port, app)
  {
    var plan := InstallPlan(cfg, host, id, port, app);
    var scripts := ScriptsWritten(cfg, id, Execute(plan, fails).performed);
    match Register(reg, id, port, scripts)
    case Failure(e) => Failure(e)
    case Success(after) =>
      Success(Transition(after, plan))
  }

  /** The `PORT` file of the site head holds the port in a form that reads
      back as the port, for every port the allocator hands out. */
  lemma PortWritten(cfg: Config, id: string, port: int)
    requires Ports.IsCandidate(port)
    ensures var w := SiteHead(cfg, id, port)[1];
      w.Write? && w.path == PortFilePath(cfg, id) && w.content.Literal? && SitePort(w.content.text) == Some(port)
  {
    CandidatePortRoundTrip(port);
  }

  /** What `PORT` holds after an installation reads back as the port, for
      every port the allocator hands out. */
  lemma InstallPortReadBack(cfg: Config, host: Host, id: string, port: int, app: Option<Archive>)
    requires Ports.IsCandidate(port)
    ensures var plan := InstallPlan(cfg, host, id, port, app);
      && |plan| >= 2 && plan[1].Write? && plan[1].path == PortFilePath(cfg, id)
      && plan[1].content.Literal? && SitePort(plan[1].content.text) == Some(port)
  {
    var plan := InstallPlan(cfg, host, id, port, app);
    InstallPlanHead(cfg, host, id, port, app);
    PortWritten(cfg, id, port);
    assert plan[1] == plan[..2][1];
  }

  /** Nothing is rolled back: whatever fails later, the site directory and
      its `PORT` file are already in place, so the site is listed. */
  lemma InstallLeavesDirectory(cfg: Config, host: Host, id: string, port: int, app: Option<Archive>,
                               fails: Command -> bool)
    ensures var performed := Execute(InstallPlan(cfg, host, id, port, app), fails).performed;
      && |performed| >= 2
      && performed[..2] == SiteHead(cfg, id, port)
  {
    InstallPlanHead(cfg, host, id, port, app);
    SiteHeadNeverHalts(cfg, id, port);
    HeadPerformed(InstallPlan(cfg, host, id, port, app), SiteHead(cfg, id, port), fails);
  }

  /** Where an installation can stop and where it writes the control
      scripts: only `mysql_install_db` (step 9), `apache2 -v` (step 18)
      and, for a non-ASCII identifier, the encoding error (step 12) can
      stop it before the application; the `db` scripts are steps 6 to 8
      and the `www` scripts steps 20 to 22. */
  lemma InstallSteps(cfg: Config, host: Host, id: string, port: int, app: Option<Archive>)
    ensures var plan := InstallPlan(cfg, host, id, port, app);
      && |plan| >= 23
      && (forall i :: 0 <= i < 23 ==> (MayHalt(plan[i]) <==> i == 9 || i == 18 || (i == 12 && !IsAscii(id))))
      && (!IsAscii(id) ==> plan[12].Crash?)
      && plan[9] == Run(InstallDbCommand(cfg, id), true)
      && plan[18] == Run(VersionCommand, true)
      && plan[1].Write? && plan[1].path == PortFilePath(cfg, id)
      && plan[5].Write? && plan[5].path == Paths.Join(SiteDirectory(cfg, id), "mysql.conf")
      && (forall c: Control :: plan[5 + ControlIndex(c)].Write? && plan[5 + ControlIndex(c)].path == ScriptPath(cfg, id, Db, c))
      && (forall c: Control :: plan[19 + ControlIndex(c)].Write? && plan[19 + ControlIndex(c)].path == ScriptPath(cfg, id, Www, c))
  {
    InstallPlanHead(cfg, host, id, port, app);
    InstallPlanServers(cfg, host, id, port, app);
    SiteHeadNeverHalts(cfg, id, port);
    MysqlSteps(cfg, id, port);
    ApacheSteps(cfg, host, id, port);
    StepsOfParts(cfg, id, InstallPlan(cfg, host, id, port, app), SiteHead(cfg, id, port), MysqlPlan(cfg, id, port),
                 ApachePlan(cfg, host, id, port), IsAscii(id));
  }

  /** The steps of the MySQL installation that the whole installation's
      order depends on. */
  lemma MysqlSteps(cfg: Config, id: string, port: int)
    ensures var mysql := MysqlPlan(cfg, id, port);
      && (forall i :: 0 <= i < 11 ==> (MayHalt(mysql[i]) <==> i == 7 || (i == 10 && !IsAscii(id))))
      && (!IsAscii(id) ==> mysql[10].Crash?)
      && mysql[7] == Run(InstallDbCommand(cfg, id), true)
      && mysql[3].Write? && mysql[3].path == Paths.Join(SiteDirectory(cfg, id), "mysql.conf")
      && (forall c: Control :: mysql[3 + ControlIndex(c)].Write? && mysql[3 + ControlIndex(c)].path == ScriptPath(cfg, id, Db, c))
  {
    var mysql := MysqlPlan(cfg, id, port);
    MysqlOrder(cfg, id, port);
    var w := TemplateToFiles(cfg, SiteDirectory(cfg, id), MysqlFiles(), MysqlTags(cfg, id, port));
    assert mysql[3..7][0] == mysql[3];
    forall c: Control
      ensures mysql[3 + ControlIndex(c)].Write? && mysql[3 + ControlIndex(c)].path == ScriptPath(cfg, id, Db, c)
    {
      ServerScriptsRendered(cfg, id, "mysql.conf.template", "mysql.conf", "mysql", Db, MysqlTags(cfg, id, port), c);
      assert mysql[3..7][ControlIndex(c)] == mysql[3 + ControlIndex(c)];
    }
  }

  /** The steps of the Apache installation that the whole installation's
      order depends on. */
  lemma ApacheSteps(cfg: Config, host: Host, id: string, port: int)
    ensures var apache := ApachePlan(cfg, host, id, port);
      && (forall i :: 0 <= i < 10 ==> (MayHalt(apache[i]) <==> i == 5))
      && apache[5] == Run(VersionCommand, true)
      && (forall c: Control :: apache[6 + ControlIndex(c)].Write? && apache[6 + ControlIndex(c)].path == ScriptPath(cfg, id, Www, c))
  {
    var apache := ApachePlan(cfg, host, id, port);
    ApacheOrder(cfg, host, id, port);
    forall c: Control
      ensures apache[6 + ControlIndex(c)].Write? && apache[6 + ControlIndex(c)].path == ScriptPath(cfg, id, Www, c)
    {
      ServerScriptsRendered(cfg, id, ApacheConfTemplate(ApacheVersion(host.apacheBanner)), "apache2.conf", "apache2", Www,
                            ApacheTags(cfg, id, port), c);
      assert apache[6..][ControlIndex(c)] == apache[6 + ControlIndex(c)];
    }
  }

  /** Where the parts of an installation plan land: the head at 0-1, MySQL
      at 2-12, Apache at 13-22. */
  lemma StepsOfParts(cfg: Config, id: string, plan: Plan, head: Plan, mysql: Plan, apache: Plan, ascii: bool)
    requires |plan| >= 23 && |head| == 2 && |mysql| == 11 && |apache| == 10
    requires plan[..2] == head && plan[2..13] == mysql && plan[13..23] == apache
    requires NeverHalts(head) && head[1].Write? && head[1].path == PortFilePath(cfg, id)
    requires forall i :: 0 <= i < 11 ==> (MayHalt(mysql[i]) <==> i == 7 || (i == 10 && !ascii))
    requires !ascii ==> mysql[10].Crash?
    requires mysql[7] == Run(InstallDbCommand(cfg, id), true)
    requires mysql[3].Write? && mysql[3].path == Paths.Join(SiteDirectory(cfg, id), "mysql.conf")
    requires forall c: Control :: mysql[3 + ControlIndex(c)].Write? && mysql[3 + ControlIndex(c)].path == ScriptPath(cfg, id, Db, c)
    requires forall i :: 0 <= i < 10 ==> (MayHalt(apache[i]) <==> i == 5)
    requires apache[5] == Run(VersionCommand, true)
    requires forall c: Control :: apache[6 + ControlIndex(c)].Write? && apache[6 + ControlIndex(c)].path == ScriptPath(cfg, id, Www, c)
    ensures forall i :: 0 <= i < 23 ==> (MayHalt(plan[i]) <==> i == 9 || i == 18 || (i == 12 && !ascii))
    ensures !ascii ==> plan[12].Crash?
    ensures plan[9] == Run(InstallDbCommand(cfg, id), true)
    ensures plan[18] == Run(VersionCommand, true)
    ensures plan[1].Write? && plan[1].path == PortFilePath(cfg, id)
    ensures plan[5].Write? && plan[5].path == Paths.Join(SiteDirectory(cfg, id), "mysql.conf")
    ensures forall c: Control :: plan[5 + ControlIndex(c)].Write? && plan[5 + ControlIndex(c)].path == ScriptPath(cfg, id, Db, c)
    ensures forall c: Control :: plan[19 + ControlIndex(c)].Write? && plan[19 + ControlIndex(c)].path == ScriptPath(cfg, id, Www, c)
  {
    forall i | 0 <= i < 23
      ensures MayHalt(plan[i]) <==> i == 9 || i == 18 || (i == 12 && !ascii)
    {
      if i < 2 {
        assert plan[..2][i] == plan[i];
      } else if i < 13 {
        assert plan[2..13][i - 2] == plan[i];
      } else {
        assert plan[13..23][i - 13] == plan[i];
      }
    }
    assert plan[2..13][7] == plan[9] && plan[2..13][10] == plan[12];
    assert plan[13..23][5] == plan[18];
    assert plan[..2][1] == plan[1];
    assert plan[2..13][3] == plan[5];
    forall c: Control
      ensures plan[5 + ControlIndex(c)] == mysql[3 + ControlIndex(c)]
      ensures plan[19 + ControlIndex(c)] == apache[6 + ControlIndex(c)]
    {
      assert plan[2..13][3 + ControlIndex(c)] == plan[5 + ControlIndex(c)];
      assert plan[13..23][6 + ControlIndex(c)] == plan[19 + ControlIndex(c)];
    }
  }

  /** Before Apache renders its files, the installation writes only `PORT`
      (step 1) and the MySQL files (steps 5 to 8). */
  lemma WritesBeforeApache(cfg: Config, host: Host, id: string, port: int, app: Option<Archive>)
    ensures var plan := InstallPlan(cfg, host, id, port, app);
      |plan| >= 19 && forall i :: 0 <= i < 19 && plan[i].Write? ==> i == 1 || 5 <= i <= 8
  {
    var plan := InstallPlan(cfg, host, id, port, app);
    var mysql := MysqlPlan(cfg, id, port);
    var apache := ApachePlan(cfg, host, id, port);
    InstallPlanHead(cfg, host, id, port, app);
    InstallPlanServers(cfg, host, id, port, app);
    MysqlOrder(cfg, id, port);
    ApacheOrder(cfg, host, id, port);
    forall i | 0 <= i < 19 && !(i == 1 || 5 <= i <= 8)
      ensures !plan[i].Write?
    {
      if i < 2 {
        assert plan[i] == plan[..2][i];
      } else if i < 13 {
        assert plan[2..13][i - 2] == plan[i];
        if i < 5 {
          assert mysql[..3][i - 2] == mysql[i - 2];
        }
      } else {
        assert plan[13..23][i - 13] == plan[i];
      }
    }
  }

  /** ... and none of those is a `www` script: `PORT`, `mysql.conf` and the
      `db` scripts all have other names in the site directory. */
  lemma NoWwwScriptAmong(cfg: Config, id: string, plan: Plan, c: Control)
    requires |plan| >= 19
    requires forall i :: 0 <= i < 19 && plan[i].Write? ==> i == 1 || 5 <= i <= 8
    requires plan[1].Write? && plan[1].path == PortFilePath(cfg, id)
    requires plan[5].Write? && plan[5].path == Paths.Join(SiteDirectory(cfg, id), "mysql.conf")
    requires forall c': Control :: plan[5 + ControlIndex(c')].Write? && plan[5 + ControlIndex(c')].path == ScriptPath(cfg, id, Db, c')
    ensures forall i :: 0 <= i < 19 && plan[i].Write? ==> plan[i].path != ScriptPath(cfg, id, Www, c)
  {
    var d := SiteDirectory(cfg, id);
    assert ScriptName(Www, c)[0] == 'w';
    Paths.JoinInjective(d, "PORT", ScriptName(Www, c));
    ScriptNameIsNotConf(d, Www, c, "mysql.conf");
    forall c': Control
      ensures ScriptPath(cfg, id, Db, c') != ScriptPath(cfg, id, Www, c)
    {
      ScriptPathsDistinct(cfg, id, Db, c', Www, c);
    }
    assert plan[5 + ControlIndex(Start)] == plan[6];
    assert plan[5 + ControlIndex(Stop)] == plan[7];
    assert plan[5 + ControlIndex(IsRunning)] == plan[8];
  }

  /** How far an installation gets: it stops at `mysql_install_db` when that
      fails, at the encoding error for a non-ASCII identifier, at
      `apache2 -v` when that fails, and otherwise performs at least
      everything before the application. */
  lemma InstallPerformed(cfg: Config, host: Host, id: string, port: int, app: Option<Archive>, fails: Command -> bool)
    ensures var plan := InstallPlan(cfg, host, id, port, app);
      var performed := Execute(plan, fails).performed;
      && |plan| >= 23
      && (fails(InstallDbCommand(cfg, id)) ==> performed == plan[..10])
      && (!fails(InstallDbCommand(cfg, id)) && !IsAscii(id) ==> performed == plan[..13])
      && (!fails(InstallDbCommand(cfg, id)) && IsAscii(id) && fails(VersionCommand) ==> performed == plan[..19])
      && (!fails(InstallDbCommand(cfg, id)) && IsAscii(id) && !fails(VersionCommand) ==> plan[..23] <= performed)
  {
    InstallSteps(cfg, host, id, port, app);
    PerformedByChecks(InstallPlan(cfg, host, id, port, app), fails, InstallDbCommand(cfg, id), VersionCommand, IsAscii(id));
  }

  /** How far a plan gets whose first 23 steps can halt only at the checked
      commands `a` (step 9) and `b` (step 18), and at an exception at step
      12 unless `ascii`. */
  lemma PerformedByChecks(plan: Plan, fails: Command -> bool, a: Command, b: Command, ascii: bool)
    requires |plan| >= 23
    requires forall i :: 0 <= i < 23 ==> (MayHalt(plan[i]) <==> i == 9 || i == 18 || (i == 12 && !ascii))
    requires !ascii ==> plan[12].Crash?
    requires plan[9] == Run(a, true) && plan[18] == Run(b, true)
    ensures var performed := Execute(plan, fails).performed;
      && (fails(a) ==> performed == plan[..10])
      && (!fails(a) && !ascii ==> performed == plan[..13])
      && (!fails(a) && ascii && fails(b) ==> performed == plan[..19])
      && (!fails(a) && ascii && !fails(b) ==> plan[..23] <= performed)
  {
    if fails(a) {
      StopsAt(plan, fails, 9);
    } else if !ascii {
      StopsAt(plan, fails, 12);
    } else if fails(b) {
      StopsAt(plan, fails, 18);
    } else {
      ExecutePerformsPrefix(plan, fails, 23);
    }
  }

  /** The scripts written by a prefix of a plan laid out as an installation
      is: all six when the prefix reaches past step 22, only the `db` ones
      when it ends before step 19. */
  lemma ScriptsOfPrefix(cfg: Config, id: string, plan: Plan, performed: Plan, complete: bool)
    requires |plan| >= 23
    requires forall c: Control :: plan[5 + ControlIndex(c)].Write? && plan[5 + ControlIndex(c)].path == ScriptPath(cfg, id, Db, c)
    requires forall c: Control :: plan[19 + ControlIndex(c)].Write? && plan[19 + ControlIndex(c)].path == ScriptPath(cfg, id, Www, c)
    requires forall c: Control, i :: 0 <= i < 19 && plan[i].Write? ==> plan[i].path != ScriptPath(cfg, id, Www, c)
    requires performed <= plan
    requires complete ==> |performed| >= 23
    requires !complete ==> 10 <= |performed| <= 19
    ensures ScriptsWritten(cfg, id, performed) == if complete then AllScripts else ServerScripts(Db)
  {
    assert performed == plan[..|performed|];
    forall c: Control
      ensures Writes(performed, ScriptPath(cfg, id, Db, c))
      ensures Writes(performed, ScriptPath(cfg, id, Www, c)) <==> complete
    {
      WrittenAt(plan, performed, 5 + ControlIndex(c));
      if complete {
        WrittenAt(plan, performed, 19 + ControlIndex(c));
      } else {
        NotWrittenBefore(plan, performed, 19, ScriptPath(cfg, id, Www, c));
      }
    }
    ScriptsFromWrites(cfg, id, performed, complete);
  }

  /** The scripts written are all six, or the `db` ones, according as the
      `www` ones are written alongside the `db` ones. */
  lemma ScriptsFromWrites(cfg: Config, id: string, performed: Plan, www: bool)
    requires forall c: Control :: Writes(performed, ScriptPath(cfg, id, Db, c))
    requires forall c: Control :: Writes(performed, ScriptPath(cfg, id, Www, c)) <==> www
    ensures ScriptsWritten(cfg, id, performed) == if www then AllScripts else ServerScripts(Db)
  {
    ScriptSetByServer(ScriptsWritten(cfg, id, performed), if www then AllScripts else ServerScripts(Db), www);
  }

  /** A step of the plan that the performed prefix reaches is written. */
  lemma WrittenAt(plan: Plan, performed: Plan, k: nat)
    requires k < |performed| <= |plan| && performed == plan[..|performed|]
    requires plan[k].Write?
    ensures Writes(performed, plan[k].path)
  {
    assert performed[k] == plan[k];
  }

  /** A performed prefix ending before step `n` writes no path that the
      first `n` steps do not write. */
  lemma NotWrittenBefore(plan: Plan, performed: Plan, n: nat, path: string)
    requires |performed| <= n <= |plan| && performed == plan[..|performed|]
    requires forall i :: 0 <= i < n && plan[i].Write? ==> plan[i].path != path
    ensures !Writes(performed, path)
  {
    assert forall i :: 0 <= i < |performed| ==> performed[i] == plan[i];
  }

  /** Two sets of scripts that hold every `db` script and agree on holding
      the `www` ones are equal. */
  lemma ScriptSetByServer(a: set<Script>, b: set<Script>, www: bool)
    requires a <= AllScripts && b <= AllScripts
    requires forall c: Control :: (Db, c) in a && (Db, c) in b
    requires forall c: Control :: ((Www, c) in a <==> www) && ((Www, c) in b <==> www)
    ensures a == b
  {
    forall x: Script | x in a
      ensures x in b
    {
      assert x == (x.0, x.1);
    }
    forall x: Script | x in b
      ensures x in a
    {
      assert x == (x.0, x.1);
    }
  }

  /** The control scripts an installation leaves behind: MySQL's are written
      before anything can fail; Apache's only once both `mysql_install_db`
      and `apache2 -v` have succeeded and the user creation has encoded its
      script. */
  lemma InstallScripts(cfg: Config, host: Host, id: string, port: int, app: Option<Archive>, fails: Command -> bool)
    ensures ScriptsWritten(cfg, id, Execute(InstallPlan(cfg, host, id, port, app), fails).performed)
         == if !fails(InstallDbCommand(cfg, id)) && !fails(VersionCommand) && IsAscii(id) then AllScripts else ServerScripts(Db)
  {
    var plan := InstallPlan(cfg, host, id, port, app);
    InstallSteps(cfg, host, id, port, app);
    WritesBeforeApache(cfg, host, id, port, app);
    forall c: Control
      ensures forall i :: 0 <= i < 19 && plan[i].Write? ==> plan[i].path != ScriptPath(cfg, id, Www, c)
    {
      NoWwwScriptAmong(cfg, id, plan, c);
    }
    ScriptsOfChecks(cfg, id, plan, fails, InstallDbCommand(cfg, id), VersionCommand, IsAscii(id));
  }

  /** The scripts written by a plan laid out as an installation, whose
      checked commands `a` and `b` sit at steps 9 and 18, with a crash at
      step 12 unless `ascii` holds. */
  lemma ScriptsOfChecks(cfg: Config, id: string, plan: Plan, fails: Command -> bool, a: Command, b: Command, ascii: bool)
    requires |plan| >= 23
    requires forall i :: 0 <= i < 23 ==> (MayHalt(plan[i]) <==> i == 9 || i == 18 || (i == 12 && !ascii))
    requires !ascii ==> plan[12].Crash?
    requires plan[9] == Run(a, true) && plan[18] == Run(b, true)
    requires forall c: Control :: plan[5 + ControlIndex(c)].Write? && plan[5 + ControlIndex(c)].path == ScriptPath(cfg, id, Db, c)
    requires forall c: Control :: plan[19 + ControlIndex(c)].Write? && plan[19 + ControlIndex(c)].path == ScriptPath(cfg, id, Www, c)
    requires forall c: Control, i :: 0 <= i < 19 && plan[i].Write? ==> plan[i].path != ScriptPath(cfg, id, Www, c)
    ensures ScriptsWritten(cfg, id, Execute(plan, fails).performed)
         == if !fails(a) && !fails(b) && ascii then AllScripts else ServerScripts(Db)
  {
    var performed := Execute(plan, fails).performed;
    PerformedByChecks(plan, fails, a, b, ascii);
    assert !fails(a) && !fails(b) && ascii ==> |performed| >= 23;
    ScriptsOfPrefix(cfg, id, plan, performed, !fails(a) && !fails(b) && ascii);
  }

  /** Removing a site registered stopped gives the registry back exactly
      when both `isrunning` scripts exist and `chmod` and `rm` succeed;
      otherwise the registry stays as it is. */
  lemma RemoveStopped(cfg: Config, reg: Registry, after: Registry, id: string, port: int, scripts: set<Script>,
                      fails: Command -> bool)
    requires IsValid(id) && id !in reg && after == reg[id := Site(port, false, false, scripts)]
    ensures var r := RemoveSite(cfg, after, id, fails);
      && r.Success?
      && (id !in r.value.registry <==>
            && (Www, IsRunning) in scripts && (Db, IsRunning) in scripts
            && !fails(["chmod", "-R", "u+w", SiteDirectory(cfg, id)])
            && !fails(["rm", "-Rf", SiteDirectory(cfg, id)]))
      && (id !in r.value.registry ==> r.value.registry == reg)
      && (id in r.value.registry ==> r.value.registry == after)
  {
    var r := RemoveSite(cfg, after, id, fails);
    assert r.Success?;
    var back := r.value.registry;
    if id in back {
      assert back[id].port == port && back[id].scripts == scripts;
      assert back[id] == after[id];
    }
    RegistryBack(reg, after, id, back);
  }

  /** A registry that agrees with `after` away from `id` is `reg` once `id`
      is gone, and `after` while `id` keeps its entry. */
  lemma RegistryBack(reg: Registry, after: Registry, id: string, back: Registry)
    requires id !in reg && id in after && forall other :: other in reg <==> other in after && other != id
    requires forall other :: other in after && other != id ==> other in reg && after[other] == reg[other]
    requires forall other :: other != id ==> (other in back <==> other in after) && (other in after ==> back[other] == after[other])
    ensures id !in back ==> back == reg
    ensures id in back && back[id] == after[id] ==> back == after
  {
    if id !in back {
      assert back.Keys == reg.Keys;
    } else if back[id] == after[id] {
      assert back.Keys == after.Keys;
    }
  }

  /** An installation's scripts hold both `isrunning` probes exactly when
      they are all six. */
  lemma BothProbes(scripts: set<Script>, all: bool)
    requires scripts == if all then AllScripts else ServerScripts(Db)
    ensures (Www, IsRunning) in scripts && (Db, IsRunning) in scripts <==> all
  {
  }

  /** Removing a site just installed gives the registry back exactly when
      the removal gets through: when the installation got past both
      `mysql_install_db` and `apache2 -v`, so that `www.isrunning` exists,
      and `chmod` and `rm` succeed. Otherwise `remove_site` raises, or a
      checked command fails, and the site stays as installed. */
  lemma RemoveUndoesInstall(cfg: Config, reg: Registry, host: Host, id: string, port: int, app: Option<Archive>,
                            fails: Command -> bool)
    requires InstallSite(cfg, reg, host, id, port, app, fails).Success?
    ensures var after := InstallSite(cfg, reg, host, id, port, app, fails).value.registry;
      var r := RemoveSite(cfg, after, id, fails);
      && r.Success?
      && (id !in r.value.registry <==>
            && !fails(InstallDbCommand(cfg, id)) && !fails(VersionCommand)
            && !fails(["chmod", "-R", "u+w", SiteDirectory(cfg, id)])
            && !fails(["rm", "-Rf", SiteDirectory(cfg, id)]))
      && (id !in r.value.registry ==> r.value.registry == reg)
      && (id in r.value.registry ==> r.value.registry == after)
  {
    var t := InstallSite(cfg, reg, host, id, port, app, fails).value;
    var scripts := ScriptsWritten(cfg, id, Execute(t.plan, fails).performed);
    assert t.registry == reg[id := Site(port, false, false, scripts)];
    Text.WordsAreAscii(id);
    InstallScripts(cfg, host, id, port, app, fails);
    BothProbes(scripts, !fails(InstallDbCommand(cfg, id)) && !fails(VersionCommand) && IsAscii(id));
    RemoveStopped(cfg, reg, t.registry, id, port, scripts, fails);
  }

  /** No two sites share a base port. */
  predicate PortsDistinct(reg: Registry) {
    forall a, b :: a in reg && b in reg && a != b ==> reg[a].port != reg[b].port
  }

  /** Every site's base port is one the allocator can hand out. */
  predicate PortsAreCandidates(reg: Registry) {
    forall a :: a in reg ==> Ports.IsCandidate(reg[a].port)
  }

  /** Registering a site on a candidate port no site uses keeps every base
      port a candidate and keeps base ports distinct, and the new site's
      block of ports is disjoint from every other site's. */
  lemma RegisterFreePort(reg: Registry, id: string, port: int, scripts: set<Script>)
    requires PortsDistinct(reg) && PortsAreCandidates(reg) && id !in reg
    requires Ports.IsCandidate(port) && forall other :: other in reg ==> reg[other].port != port
    ensures var after := reg[id := Site(port, false, false, scripts)];
      && PortsDistinct(after) && PortsAreCandidates(after)
      && forall other :: other in after && other != id ==> Ports.Block(after[other].port) !! Ports.Block(port)
  {
    var after := reg[id := Site(port, false, false, scripts)];
    forall other | other in after && other != id
      ensures Ports.Block(after[other].port) !! Ports.Block(port)
    {
      Ports.BlocksDisjoint(after[other].port, port);
    }
  }

  /** `command_install` installs with `find_unused_port()`: doing so keeps
      every base port a candidate, keeps base ports distinct, and gives the
      new site a block of ports no other site touches. */
  lemma InstallWithUnusedPort(reg: Registry, id: string, scripts: set<Script>)
    requires PortsDistinct(reg) && PortsAreCandidates(reg)
    requires IsValid(id) && id !in reg
    requires FindUnusedPort(reg).Some?
    ensures var after := Register(reg, id, FindUnusedPort(reg).value, scripts).value;
      && PortsDistinct(after) && PortsAreCandidates(after)
      && forall other :: other in after && other != id ==> Ports.Block(after[other].port) !! Ports.Block(after[id].port)
  {
    var port := FindUnusedPort(reg).value;
    RegisterFreePort(reg, id, port, scripts);
  }

  // ---------------------------------------------------------------------------
  // Where an installation writes

  /** Rendered files land inside the directory they are rendered into, and
      no directory is created by rendering. */
  lemma WritesInside(cfg: Config, dir: string, files: seq<FileSpec>, tags: seq<(string, string)>)
    requires IsDirPath(dir)
    requires forall i :: 0 <= i < |files| ==> IsComponent(files[i].destination)
    ensures Confined(TemplateToFiles(cfg, dir, files, tags), dir)
    ensures forall i :: 0 <= i < |files| ==> !TemplateToFiles(cfg, dir, files, tags)[i].Mkdir?
  {
    forall i | 0 <= i < |files| {
      ChildOf(dir, files[i].destination);
    }
  }

  /** Rendering a file table writes every destination of the table, and
      rows with different destinations land in different files. */
  lemma TemplateRowsWritten(cfg: Config, dir: string, files: seq<FileSpec>, tags: seq<(string, string)>)
    requires IsDirPath(dir)
    requires forall i :: 0 <= i < |files| ==> IsComponent(files[i].destination)
    ensures forall i :: 0 <= i < |files| ==> Writes(TemplateToFiles(cfg, dir, files, tags), Paths.Join(dir, files[i].destination))
    ensures forall i, j :: 0 <= i < |files| && 0 <= j < |files| && files[i].destination != files[j].destination ==>
      TemplateToFiles(cfg, dir, files, tags)[i].path != TemplateToFiles(cfg, dir, files, tags)[j].path
  {
    var plan := TemplateToFiles(cfg, dir, files, tags);
    forall i | 0 <= i < |files|
      ensures Writes(plan, Paths.Join(dir, files[i].destination))
    {
      assert plan[i].Write? && plan[i].path == Paths.Join(dir, files[i].destination);
    }
    forall i, j | 0 <= i < |files| && 0 <= j < |files| && files[i].destination != files[j].destination
      ensures plan[i].path != plan[j].path
    {
      Paths.JoinInjective(dir, files[i].destination, files[j].destination);
    }
  }

  lemma FileTableComponents(confTemplate: string, confName: string, prefix: string, server: Server)
    requires IsComponent(confName)
    ensures var files := FileTable(confTemplate, confName, prefix, server);
      forall i :: 0 <= i < |files| ==> IsComponent(files[i].destination)
  {
  }

  /** `db`, then `db/run` and `db/log` inside it. */
  lemma DbDirsTree(cfg: Config, id: string)
    requires IsDirPath(SiteDirectory(cfg, id))
    ensures ParentsFirst(MkdirEach(DbDirs(cfg, id)), SiteDirectory(cfg, id))
    ensures Confined(MkdirEach(DbDirs(cfg, id)), SiteDirectory(cfg, id))
  {
    MkdirFamily(SiteDirectory(cfg, id), "db", ["run", "log"]);
  }

  /** The MySQL installation creates its directories parents first and
      writes only inside the site directory. */
  lemma MysqlTree(cfg: Config, id: string, port: int)
    requires IsDirPath(SiteDirectory(cfg, id))
    ensures ParentsFirst(MysqlPlan(cfg, id, port), SiteDirectory(cfg, id))
    ensures Confined(MysqlPlan(cfg, id, port), SiteDirectory(cfg, id))
  {
    var d := SiteDirectory(cfg, id);
    var files := MkdirEach(DbDirs(cfg, id)) + TemplateToFiles(cfg, d, MysqlFiles(), MysqlTags(cfg, id, port));
    var user := CreateDefaultUser(cfg, id, MysqlConf(cfg, id));
    var rest := [Run(InstallDbCommand(cfg, id), true)] + user;
    MysqlFilesTree(cfg, id, port);
    MysqlCommandsOnly(cfg, id, d);
    ParentsFirstAppend(files, rest, d, d);
    ConfinedAppend(files, rest, d);
    AppendAssoc(files, [Run(InstallDbCommand(cfg, id), true)], user);
  }

  /** What MySQL runs after writing its files creates and writes nothing. */
  lemma MysqlCommandsOnly(cfg: Config, id: string, d: string)
    ensures var rest := [Run(InstallDbCommand(cfg, id), true)] + CreateDefaultUser(cfg, id, MysqlConf(cfg, id));
      ParentsFirst(rest, d) && Confined(rest, d)
  {
    var user := CreateDefaultUser(cfg, id, MysqlConf(cfg, id));
    var rest := [Run(InstallDbCommand(cfg, id), true)] + user;
    assert forall i :: 1 <= i < |rest| ==> rest[i] == user[i - 1];
    CommandsOnly(rest, d);
  }

  /** The directories and files of MySQL, before any command runs. */
  lemma MysqlFilesTree(cfg: Config, id: string, port: int)
    requires IsDirPath(SiteDirectory(cfg, id))
    ensures var d := SiteDirectory(cfg, id);
      var files := MkdirEach(DbDirs(cfg, id)) + TemplateToFiles(cfg, d, MysqlFiles(), MysqlTags(cfg, id, port));
      ParentsFirst(files, d) && Confined(files, d)
  {
    DbFilesTree(cfg, id, MysqlTags(cfg, id, port));
  }

  /** The same for any tag table: the tags only fill in file contents. */
  lemma DbFilesTree(cfg: Config, id: string, tags: seq<(string, string)>)
    requires IsDirPath(SiteDirectory(cfg, id))
    ensures var d := SiteDirectory(cfg, id);
      var files := MkdirEach(DbDirs(cfg, id)) + TemplateToFiles(cfg, d, MysqlFiles(), tags);
      ParentsFirst(files, d) && Confined(files, d)
  {
    var d := SiteDirectory(cfg, id);
    var mkdirs := MkdirEach(DbDirs(cfg, id));
    var writes := TemplateToFiles(cfg, d, MysqlFiles(), tags);
    DbDirsTree(cfg, id);
    FileTableComponents("mysql.conf.template", "mysql.conf", "mysql", Db);
    WritesInside(cfg, d, MysqlFiles(), tags);
    assert |writes| == |MysqlFiles()|;
    DirsThenWrites(mkdirs, writes, d);
  }

  /** `www`, then `www/log`, `www/lock`, `www/run` and `www/doc` inside it. */
  lemma WwwDirsTree(cfg: Config, id: string)
    requires IsDirPath(SiteDirectory(cfg, id))
    ensures ParentsFirst(MkdirEach(WwwDirs(cfg, id)), SiteDirectory(cfg, id))
    ensures Confined(MkdirEach(WwwDirs(cfg, id)), SiteDirectory(cfg, id))
  {
    MkdirFamily(SiteDirectory(cfg, id), "www", ["log", "lock", "run", "doc"]);
  }

  /** The Apache installation creates its directories parents first and
      writes only inside the site directory. */
  lemma ApacheTree(cfg: Config, host: Host, id: string, port: int)
    requires IsDirPath(SiteDirectory(cfg, id))
    ensures ParentsFirst(ApachePlan(cfg, host, id, port), SiteDirectory(cfg, id))
    ensures Confined(ApachePlan(cfg, host, id, port), SiteDirectory(cfg, id))
  {
    var d := SiteDirectory(cfg, id);
    var plan := ApachePlan(cfg, host, id, port);
    var v := ApacheVersion(host.apacheBanner);
    var mkdirs := plan[..5];
    var middle := plan[5..6];
    var writes := plan[6..];
    WwwDirsTree(cfg, id);
    assert middle == [Run(VersionCommand, true)];
    CommandsOnly(middle, d);
    FileTableComponents(ApacheConfTemplate(v), "apache2.conf", "apache2", Www);
    WritesInside(cfg, d, ApacheFiles(v), ApacheTags(cfg, id, port));
    ParentsFirstNoMkdir(writes, d);
    assert plan == mkdirs + middle + writes;
    ParentsFirstAppend(mkdirs, middle, d, d);
    ParentsFirstAppend(mkdirs + middle, writes, d, d);
    ConfinedAppend(mkdirs, middle, d);
    ConfinedAppend(mkdirs + middle, writes, d);
  }

  /** Unpacking an application creates no directory and writes no file. */
  lemma ApplicationCreatesNothing(cfg: Config, id: string, app: Option<Archive>)
    ensures forall i :: 0 <= i < |ApplicationPlan(cfg, id, app)| ==>
      !ApplicationPlan(cfg, id, app)[i].Mkdir? && !ApplicationPlan(cfg, id, app)[i].Write?
  {
    if app.Some? && Applications.ExtractorFor(Paths.Extension(app.value.file)).Some?
       && RootDirectory(app.value.members).Success? {
      ExtractCreatesNothing(cfg, id, app.value.file, RootDirectory(app.value.members).value);
    }
  }

  lemma ExtractCreatesNothing(cfg: Config, id: string, file: string, root: Option<string>)
    requires Applications.ExtractorFor(Paths.Extension(file)).Some?
    ensures var plan := Applications.ExtractPlan(cfg, id, file, root);
      forall i :: 0 <= i < |plan| ==> !plan[i].Mkdir? && !plan[i].Write?
  {
    var plan := Applications.ExtractPlan(cfg, id, file, root);
    forall i | 0 <= i < |plan|
      ensures !plan[i].Mkdir? && !plan[i].Write?
    {
      assert i == 0 || i == 1 || i == 2;
    }
  }

  /** The four parts of an installation put together: a head that creates
      the site directory `d` in `base` and writes inside it, two parts that
      each keep parents first and stay inside `d`, and a tail that neither
      creates nor writes. */
  lemma SiteTree(base: string, d: string, head: Plan, mysql: Plan, apache: Plan, rest: Plan)
    requires IsUnder(d, base) && |head| > 0 && head[0] == Mkdir(d)
    requires ParentsFirst(head, base) && Confined(head, base)
    requires ParentsFirst(mysql, d) && Confined(mysql, d)
    requires ParentsFirst(apache, d) && Confined(apache, d)
    requires forall i :: 0 <= i < |rest| ==> !rest[i].Mkdir? && !rest[i].Write?
    ensures ParentsFirst(head + mysql + apache + rest, base)
    ensures Confined(head + mysql + apache + rest, base)
  {
    ConfinedWiden(mysql, d, base);
    ConfinedWiden(apache, d, base);
    ConfinedAppend(head, mysql, base);
    ConfinedAppend(head + mysql, apache, base);
    ParentsFirstAppend(head, mysql, base, d);
    assert (head + mysql)[0] == Mkdir(d);
    ParentsFirstAppend(head + mysql, apache, base, d);
    ParentsFirstNoMkdir(rest, base);
    ParentsFirstAppend(head + mysql + apache, rest, base, base);
    ConfinedAppend(head + mysql + apache, rest, base);
  }

  /** The site directory and its `PORT` file. */
  lemma HeadTree(cfg: Config, id: string, port: int)
    requires WellFormed(cfg) && IsValid(id)
    ensures var d := SiteDirectory(cfg, id);
      var head := SiteHead(cfg, id, port);
      && IsDirPath(d) && IsUnder(d, cfg.base)
      && ParentsFirst(head, cfg.base) && Confined(head, cfg.base)
  {
    var d := SiteDirectory(cfg, id);
    SiteDirectoryShape(cfg, id);
    assert IsUnder(d, cfg.base) by {
      assert d[..|cfg.base| + 1] == cfg.base + "/";
    }
    ChildOf(d, "PORT");
    IsUnderTrans(PortFilePath(cfg, id), d, cfg.base);
  }

  /** For a well-formed `BASE` and a valid identifier, an installation
      creates every directory after its parent, starting directly in
      `BASE`, and creates and writes nothing outside `BASE`. */
  lemma InstallTree(cfg: Config, host: Host, id: string, port: int, app: Option<Archive>)
    requires WellFormed(cfg) && IsValid(id)
    ensures ParentsFirst(InstallPlan(cfg, host, id, port, app), cfg.base)
    ensures Confined(InstallPlan(cfg, host, id, port, app), cfg.base)
  {
    HeadTree(cfg, id, port);
    MysqlTree(cfg, id, port);
    ApacheTree(cfg, host, id, port);
    ApplicationCreatesNothing(cfg, id, app);
    SiteTree(cfg.base, SiteDirectory(cfg, id), SiteHead(cfg, id, port), MysqlPlan(cfg, id, port),
             ApachePlan(cfg, host, id, port), ApplicationPlan(cfg, id, app));
  }
}
