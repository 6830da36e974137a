/** `desima/site.py`: the package's site installer. It runs the same checks
    as `desima.py` and lays out the same site directory with its `PORT`
    file, then hands the directory to the database installer and the web
    server installer the caller chose, then optionally to the application
    installer. Removal is the one of `desima.py` (SiteRegistry.RemoveSite). */
module DesimaSite {
  import opened Wrappers
  import opened Text
  import opened SiteIds
  import Paths
  import SiteLayout
  import Ports
  import opened Effects
  import opened Hosts
  import opened SiteRegistry
  import Applications
  import DesimaUtils
  import Desima
  import DesimaMysql
  import DesimaPgsql
  import DesimaApache2

  /** The database servers `site_install` accepts; any other name fails its
      assertion, which the type rules out. */
  datatype DbType = Mysql | Pgsql

  /** The web servers `site_install` accepts. */
  datatype WwwType = Apache2

  /** The installer chosen for the database. */
  function DbInstall(cfg: Config, host: Host, db: DbType, id: string, port: int, dir: string): Plan
    requires IsValid(id)
  {
    match db
    case Mysql => DesimaMysql.MysqlInstall(cfg, id, port, dir)
    case Pgsql => DesimaPgsql.PgsqlInstall(cfg, host, id, port, dir)
  }

  /** The installer chosen for the web server. */
  function WwwInstall(cfg: Config, host: Host, www: WwwType, id: string, port: int, dir: string): Plan
    requires IsValid(id)
  {
    match www
    case Apache2 => DesimaApache2.Apache2Install(cfg, host, id, port, dir)
  }

  /** The application part: nothing without an archive. */
  function AppPlan(cfg: Config, id: string, app: Option<Desima.Archive>): (plan: Plan)
    requires IsValid(id)
    ensures app.None? <==> |plan| == 0
  {
    if app.None? then []
    else Applications.ApplicationInstall(cfg, id, app.value.file, app.value.members)
  }

  /** The effects of `site_install` once its checks have passed: the site
      directory and its `PORT` file, the database, the web server, then the
      application. */
  function SitePlan(cfg: Config, host: Host, id: string, port: int, www: WwwType, db: DbType,
                    app: Option<Desima.Archive>): (plan: Plan)
    requires IsValid(id)
    ensures |plan| == 2 + |DbInstall(cfg, host, db, id, port, SiteDirectory(cfg, id))|
                    + |WwwInstall(cfg, host, www, id, port, SiteDirectory(cfg, id))| + |AppPlan(cfg, id, app)|
    ensures plan[0] == Mkdir(SiteDirectory(cfg, id))
  {
    var dir := SiteDirectory(cfg, id);
    Desima.SiteHead(cfg, id, port) + DbInstall(cfg, host, db, id, port, dir)
    + WwwInstall(cfg, host, www, id, port, dir) + AppPlan(cfg, id, app)
  }

  /** `site_install(id, port, www, db, file)`: an invalid identifier, then an
      existing site, raise ValueError before any effect; otherwise the effects
      of SitePlan follow, starting with the creation of the site directory,
      and the site joins the registry, stopped, with the control scripts
      that the steps performed before the first failure have written. */
  function SiteInstall(cfg: Config, reg: Registry, host: Host, id: string, port: int, www: WwwType, db: DbType,
                       app: Option<Desima.Archive>, fails: Command -> bool): (r: Result<Transition, SiteError>)
    ensures !IsValid(id) ==> r == Failure(InvalidSiteId)
    ensures IsValid(id) && id in reg ==> r == Failure(AlreadyExists)
    ensures r.Success? <==> IsValid(id) && id !in reg
    ensures r.Success? ==> IsValid(id) && r.value.plan == SitePlan(cfg, host, id, port, www, db, app)
    ensures r.Success? ==>
      r.value.registry == reg[id := Site(port, false, false, ScriptsWritten(cfg, id, Execute(r.value.plan, fails).performed))]
    ensures r.Success? ==> |r.value.plan| >= 2 && r.value.plan[0] == Mkdir(SiteDirectory(cfg, id))
  {
    if !IsValid(id) then Failure(InvalidSiteId)
    else if id in reg then Failure(AlreadyExists)
    else
      var plan := SitePlan(cfg, host, id, port, www, db, app);
      Success(Transition(reg[id := Site(port, false, false, ScriptsWritten(cfg, id, Execute(plan, fails).performed))], plan))
  }

  /** The site head opens the plan. */
  lemma SitePlanHead(cfg: Config, host: Host, id: string, port: int, www: WwwType, db: DbType,
                     app: Option<Desima.Archive>)
    requires IsValid(id)
    ensures var plan := SitePlan(cfg, host, id, port, www, db, app);
      |plan| >= 2 && plan[..2] == Desima.SiteHead(cfg, id, port)
  {
    var dir := SiteDirectory(cfg, id);
    var head, d, w, a := Desima.SiteHead(cfg, id, port), DbInstall(cfg, host, db, id, port, dir),
                         WwwInstall(cfg, host, www, id, port, dir), AppPlan(cfg, id, app);
    assert SitePlan(cfg, host, id, port, www, db, app) == head + d + w + a;
    Desima.SiteHeadNeverHalts(cfg, id, port);
    Slices4(head, d, w, a);
  }

  /** Where the database, web server and application parts sit in the plan. */
  lemma SitePlanParts(cfg: Config, host: Host, id: string, port: int, www: WwwType, db: DbType,
                      app: Option<Desima.Archive>)
    requires IsValid(id)
    ensures var dir := SiteDirectory(cfg, id);
      var plan := SitePlan(cfg, host, id, port, www, db, app);
      var d := DbInstall(cfg, host, db, id, port, dir);
      var w := WwwInstall(cfg, host, www, id, port, dir);
      && plan[2..2 + |d|] == d
      && plan[2 + |d|..2 + |d| + |w|] == w
      && plan[2 + |d| + |w|..] == AppPlan(cfg, id, app)
  {
    var dir := SiteDirectory(cfg, id);
    var head, d, w, a := Desima.SiteHead(cfg, id, port), DbInstall(cfg, host, db, id, port, dir),
                         WwwInstall(cfg, host, www, id, port, dir), AppPlan(cfg, id, app);
    assert SitePlan(cfg, host, id, port, www, db, app) == head + d + w + a;
    Desima.SiteHeadNeverHalts(cfg, id, port);
    Slices4(head, d, w, a);
  }

  /** Without PostgreSQL binaries a PostgreSQL site still gets its web
      server: the database part is empty. */
  lemma MissingPostgresSkipped(cfg: Config, host: Host, id: string, port: int, www: WwwType,
                               app: Option<Desima.Archive>)
    requires IsValid(id) && DesimaPgsql.BinDirectory(host).None?
    ensures SitePlan(cfg, host, id, port, www, Pgsql, app)
         == Desima.SiteHead(cfg, id, port) + WwwInstall(cfg, host, www, id, port, SiteDirectory(cfg, id))
            + AppPlan(cfg, id, app)
  {
    var head := Desima.SiteHead(cfg, id, port);
    assert DbInstall(cfg, host, Pgsql, id, port, SiteDirectory(cfg, id)) == [];
    assert head + [] == head;
  }

  /** Nothing is rolled back: whatever fails later, the site directory and
      its `PORT` file are in place, so the site is listed from then on. */
  lemma SiteLeavesDirectory(cfg: Config, host: Host, id: string, port: int, www: WwwType, db: DbType,
                            app: Option<Desima.Archive>, fails: Command -> bool)
    requires IsValid(id)
    ensures var performed := Execute(SitePlan(cfg, host, id, port, www, db, app), fails).performed;
      |performed| >= 2 && performed[..2] == Desima.SiteHead(cfg, id, port)
  {
    SitePlanHead(cfg, host, id, port, www, db, app);
    Desima.SiteHeadNeverHalts(cfg, id, port);
    HeadPerformed(SitePlan(cfg, host, id, port, www, db, app), Desima.SiteHead(cfg, id, port), fails);
  }

  /** What `PORT` holds reads back as the port, for every port the
      allocator hands out. */
  lemma SitePortReadBack(cfg: Config, host: Host, id: string, port: int, www: WwwType, db: DbType,
                         app: Option<Desima.Archive>)
    requires IsValid(id) && Ports.IsCandidate(port)
    ensures var plan := SitePlan(cfg, host, id, port, www, db, app);
      && plan[1].Write? && plan[1].path == PortFilePath(cfg, id)
      && plan[1].content.Literal? && SitePort(plan[1].content.text) == Some(port)
  {
    var plan := SitePlan(cfg, host, id, port, www, db, app);
    SitePlanHead(cfg, host, id, port, www, db, app);
    Desima.PortWritten(cfg, id, port);
    assert plan[1] == plan[..2][1];
  }

  /** Unpacking the application creates and writes nothing itself. */
  lemma AppCreatesNothing(cfg: Config, id: string, app: Option<Desima.Archive>)
    requires IsValid(id)
    ensures forall i :: 0 <= i < |AppPlan(cfg, id, app)| ==>
      !AppPlan(cfg, id, app)[i].Mkdir? && !AppPlan(cfg, id, app)[i].Write?
  {
    if && app.Some? && Applications.ExtractorFor(Paths.Extension(app.value.file)).Some?
       && DesimaUtils.RootDirectory(app.value.members).Success?
    {
      Desima.ExtractCreatesNothing(cfg, id, app.value.file, DesimaUtils.RootDirectory(app.value.members).value);
    }
  }

  /** The chosen database installer keeps parents first and stays inside
      the site directory. */
  lemma DbTree(cfg: Config, host: Host, db: DbType, id: string, port: int, dir: string)
    requires IsValid(id) && IsDirPath(dir)
    ensures ParentsFirst(DbInstall(cfg, host, db, id, port, dir), dir)
    ensures Confined(DbInstall(cfg, host, db, id, port, dir), dir)
  {
    match db
    case Mysql => DesimaMysql.MysqlTree(cfg, id, port, dir);
    case Pgsql => DesimaPgsql.PgsqlTree(cfg, host, id, port, dir);
  }

  /** For a well-formed `BASE` and a valid identifier, whatever servers are
      chosen, every directory is created after its parent and every
      directory and file lies inside `BASE`. */
  lemma SiteTree(cfg: Config, host: Host, id: string, port: int, www: WwwType, db: DbType,
                 app: Option<Desima.Archive>)
    requires WellFormed(cfg) && IsValid(id)
    ensures ParentsFirst(SitePlan(cfg, host, id, port, www, db, app), cfg.base)
    ensures Confined(SitePlan(cfg, host, id, port, www, db, app), cfg.base)
  {
    var dir := SiteDirectory(cfg, id);
    Desima.HeadTree(cfg, id, port);
    DbTree(cfg, host, db, id, port, dir);
    match www {
      case Apache2 => DesimaApache2.ApacheTree(cfg, host, id, port, dir);
    }
    AppCreatesNothing(cfg, id, app);
    Desima.SiteTree(cfg.base, dir, Desima.SiteHead(cfg, id, port), DbInstall(cfg, host, db, id, port, dir),
                    WwwInstall(cfg, host, www, id, port, dir), AppPlan(cfg, id, app));
  }

  /** The ports a site's servers listen on: HTTP on the base port, HTTPS on
      the next, the database two above, whichever database is chosen; all
      three lie in the site's block. */
  lemma SitePorts(cfg: Config, host: Host, id: string, port: int)
    requires IsValid(id)
    ensures var dir := SiteDirectory(cfg, id);
      var www := DesimaApache2.ApacheTokens(cfg, id, port, dir, "");
      && ParseInt(www["HTTP_PORT"]) == Some(port)
      && ParseInt(www["HTTPS_PORT"]) == Some(port + 1)
      && ParseInt(DesimaMysql.MysqlTokens(cfg, id, port, dir)["PORT"]) == Some(port + 2)
      && ParseInt(DesimaPgsql.PgsqlTokens(cfg, id, port, dir, "")["PORT"]) == Some(port + 2)
      && Ports.Block(port) == {port, port + 1, port + 2}
  {
    var dir := SiteDirectory(cfg, id);
    DesimaApache2.ApacheTokenValues(cfg, id, port, dir, "");
    ParseIntRoundTrip(port);
    ParseIntRoundTrip(port + 1);
    DesimaMysql.MysqlPortTokens(cfg, id, port, dir);
    DesimaPgsql.PgsqlPortTokens(cfg, id, port, dir, "");
  }

  /** Removing a site just installed gives the registry back exactly when
      both of its `isrunning` scripts were written and `chmod` and `rm`
      succeed; otherwise the site stays as installed. */
  lemma RemoveUndoesInstall(cfg: Config, reg: Registry, host: Host, id: string, port: int, www: WwwType, db: DbType,
                            app: Option<Desima.Archive>, fails: Command -> bool)
    requires SiteInstall(cfg, reg, host, id, port, www, db, app, fails).Success?
    ensures var after := SiteInstall(cfg, reg, host, id, port, www, db, app, fails).value.registry;
      var r := RemoveSite(cfg, after, id, fails);
      && r.Success?
      && (id !in r.value.registry <==>
            && (Www, IsRunning) in after[id].scripts && (Db, IsRunning) in after[id].scripts
            && !fails(["chmod", "-R", "u+w", SiteDirectory(cfg, id)])
            && !fails(["rm", "-Rf", SiteDirectory(cfg, id)]))
      && (id !in r.value.registry ==> r.value.registry == reg)
      && (id in r.value.registry ==> r.value.registry == after)
  {
    var after := SiteInstall(cfg, reg, host, id, port, www, db, app, fails).value.registry;
    Desima.RemoveStopped(cfg, reg, after, id, port, after[id].scripts, fails);
  }

  /** The site head writes no control script: only `PORT`. */
  lemma HeadWritesNoScript(cfg: Config, id: string, port: int, s: Server, c: Control)
    ensures !Writes(Desima.SiteHead(cfg, id, port), ScriptPath(cfg, id, s, c))
  {
    assert ScriptName(s, c)[0] == ServerName(s)[0];
    Paths.JoinInjective(SiteDirectory(cfg, id), "PORT", ScriptName(s, c));
  }

  /** Apache's installer writes no `db` script: only `apache2.conf` and its
      own scripts. */
  lemma ApacheWritesNoDbScript(cfg: Config, host: Host, id: string, port: int, c: Control)
    requires IsValid(id)
    ensures !Writes(DesimaApache2.Apache2Install(cfg, host, id, port, SiteDirectory(cfg, id)), ScriptPath(cfg, id, Db, c))
  {
    var dir := SiteDirectory(cfg, id);
    var plan := DesimaApache2.Apache2Install(cfg, host, id, port, dir);
    if DesimaApache2.BinDirectory(host).None? {
      assert forall i :: 0 <= i < |plan| ==> !plan[i].Write?;
    } else {
      DesimaApache2.ApacheOrder(cfg, host, id, port, dir);
      forall i | 0 <= i < |plan| && plan[i].Write?
        ensures plan[i].path != ScriptPath(cfg, id, Db, c)
      {
        ApacheWriteIsNotDbScript(cfg, host, id, port, c, i);
      }
    }
  }

  /** Each file Apache's installer writes, `apache2.conf` or a `www`
      script, is not a `db` script. */
  lemma ApacheWriteIsNotDbScript(cfg: Config, host: Host, id: string, port: int, c: Control, i: nat)
    requires IsValid(id) && DesimaApache2.BinDirectory(host).Some? && 6 <= i < 10
    ensures DesimaApache2.Apache2Install(cfg, host, id, port, SiteDirectory(cfg, id))[i].path != ScriptPath(cfg, id, Db, c)
  {
    var dir := SiteDirectory(cfg, id);
    if i == 6 {
      DesimaApache2.ApacheConfMode(cfg, host, id, port, dir);
      Desima.ScriptNameIsNotConf(dir, Db, c, "apache2.conf");
    } else {
      DesimaApache2.ApacheScript(cfg, host, id, port, i - 7);
      ScriptPathsDistinct(cfg, id, Www, SiteLayout.Controls[i - 7], Db, c);
    }
  }

  /** A PostgreSQL site installed on a host without PostgreSQL binaries has
      no `db.isrunning` script, so removing it raises FileNotFoundError at
      the first `isrunning` probe of the database, and the site stays
      registered as installed. */
  lemma PgsqlWithoutBinariesStays(cfg: Config, reg: Registry, host: Host, id: string, port: int,
                                  app: Option<Desima.Archive>, fails: Command -> bool)
    requires SiteInstall(cfg, reg, host, id, port, Apache2, Pgsql, app, fails).Success?
    requires DesimaPgsql.BinDirectory(host).None?
    ensures var after := SiteInstall(cfg, reg, host, id, port, Apache2, Pgsql, app, fails).value.registry;
      var r := RemoveSite(cfg, after, id, fails);
      && (Db, IsRunning) !in after[id].scripts
      && r.Success? && r.value.registry == after
  {
    var t := SiteInstall(cfg, reg, host, id, port, Apache2, Pgsql, app, fails).value;
    var dir := SiteDirectory(cfg, id);
    var path := ScriptPath(cfg, id, Db, IsRunning);
    var head := Desima.SiteHead(cfg, id, port);
    var w := WwwInstall(cfg, host, Apache2, id, port, dir);
    var a := AppPlan(cfg, id, app);
    MissingPostgresSkipped(cfg, host, id, port, Apache2, app);
    HeadWritesNoScript(cfg, id, port, Db, IsRunning);
    ApacheWritesNoDbScript(cfg, host, id, port, IsRunning);
    AppCreatesNothing(cfg, id, app);
    WritesAppend(head + w, a, path);
    WritesAppend(head, w, path);
    var performed := Execute(t.plan, fails).performed;
    if Writes(performed, path) {
      WritesPrefix(performed, t.plan, path);
    }
    RemoveUndoesInstall(cfg, reg, host, id, port, Apache2, Pgsql, app, fails);
  }
}
