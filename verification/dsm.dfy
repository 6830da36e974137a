/** `dsm.py`: the older installer. A site is the directory
    `BASE/site-<id>-<port>`, so the port is read from the directory name
    rather than from a file; MySQL and Apache are rendered from `***KEY***`
    templates as in `desima.py`, and removal is not implemented beyond its
    checks. */
module Dsm {
  import opened Wrappers
  import opened Text
  import opened SiteIds
  import Paths
  import Ports
  import opened Effects
  import opened Hosts
  import opened Templates
  import SiteRegistry
  import SiteLayout
  import Desima

  type Config = SiteRegistry.Config
  type Listing = SiteRegistry.Listing

  /** A listed site: its identifier and its base port. */
  type SiteRef = (string, int)

  // ---------------------------------------------------------------------------
  // Directory names

  /** The basename `site-<id>-<port>` that `site_directory` puts under `BASE`. */
  function SiteDirName(id: string, port: int): string {
    "site-" + id + "-" + IntToString(port)
  }

  /** `site_directory(id, port)`: `site-<id>-<port>` inside `BASE`. */
  function SiteDirectory(cfg: Config, id: string, port: int): (d: string)
    ensures EndsWith(d, SiteDirName(id, port))
    ensures SiteRegistry.WellFormed(cfg) ==> d == cfg.base + "/" + SiteDirName(id, port)
  {
    Paths.Join(cfg.base, SiteDirName(id, port))
  }

  /** What `\d{4,5}$` lets through: four or five digits, which `$` also
      accepts when one final newline follows them. */
  predicate IsPortField(d: string) {
    || (4 <= |d| <= 5 && AllDigits(d))
    || (5 <= |d| <= 6 && d[|d| - 1] == '\n' && AllDigits(d[..|d| - 1]))
  }

  /** The digits of a port field, without the newline. */
  function PortDigits(d: string): (digits: string)
    requires IsPortField(d)
    ensures 4 <= |digits| <= 5 && AllDigits(digits)
    ensures d == digits || d == digits + "\n"
  {
    if AllDigits(d) then d else d[..|d| - 1]
  }

  /** `SITE_FORMAT`, `^site-\w+-\d{4,5}$`. Neither a word, digits nor a
      newline hold a dash, so a name matches exactly when its dash-separated
      pieces are `site`, a word, and a port field (SiteFormatIff). */
  predicate MatchesSiteFormat(name: string) {
    var parts := Split(name, '-');
    && |parts| == 3 && parts[0] == "site"
    && |parts[1]| > 0 && AllWordChars(parts[1])
    && IsPortField(parts[2])
  }

  /** Every name `site-<word>-<4 or 5 digits>` matches, with or without a
      final newline. */
  lemma SiteFormatComplete(w: string, d: string, newline: bool)
    requires |w| > 0 && AllWordChars(w) && 4 <= |d| <= 5 && AllDigits(d)
    ensures MatchesSiteFormat(if newline then "site-" + w + "-" + d + "\n" else "site-" + w + "-" + d)
  {
    var f := if newline then d + "\n" else d;
    PortFields(d);
    assert IsPortField(f);
    assert (if newline then "site-" + w + "-" + d + "\n" else "site-" + w + "-" + d) == "site-" + w + "-" + f;
    SplitPieces(w, f);
  }

  /** Four or five digits are a port field, with or without a final
      newline. */
  lemma PortFields(d: string)
    requires 4 <= |d| <= 5 && AllDigits(d)
    ensures IsPortField(d) && IsPortField(d + "\n")
  {
    assert (d + "\n")[..|d|] == d;
  }

  /** A name matches exactly when it is `site-`, a word, a dash and four or
      five digits, perhaps followed by a newline. */
  lemma SiteFormatIff(name: string)
    ensures MatchesSiteFormat(name)
        <==> exists w, d :: && |w| > 0 && AllWordChars(w) && 4 <= |d| <= 5 && AllDigits(d)
                           && (name == "site-" + w + "-" + d || name == "site-" + w + "-" + d + "\n")
  {
    if MatchesSiteFormat(name) {
      var parts := Split(name, '-');
      PieceShape(name);
      var d := PortDigits(parts[2]);
      assert name == "site-" + parts[1] + "-" + d || name == "site-" + parts[1] + "-" + d + "\n";
    }
    if exists w, d :: && |w| > 0 && AllWordChars(w) && 4 <= |d| <= 5 && AllDigits(d)
                      && (name == "site-" + w + "-" + d || name == "site-" + w + "-" + d + "\n") {
      var w, d :| && |w| > 0 && AllWordChars(w) && 4 <= |d| <= 5 && AllDigits(d)
                  && (name == "site-" + w + "-" + d || name == "site-" + w + "-" + d + "\n");
      SiteFormatComplete(w, d, name != "site-" + w + "-" + d);
    }
  }

  /** `(entry.split('-')[1], int(entry.split('-')[2]))`: the identifier, and
      the port that `int` reads from the digits, ignoring the newline. */
  function ParseSiteDirName(name: string): (site: SiteRef)
    requires MatchesSiteFormat(name)
    ensures |site.0| > 0 && AllWordChars(site.0) && 0 <= site.1 < 100000
  {
    var parts := Split(name, '-');
    PortFieldValue(parts[2]);
    (parts[1], ParseInt(parts[2]).value)
  }

  /** `int` of a port field is the value of its digits. */
  lemma PortFieldValue(d: string)
    requires IsPortField(d)
    ensures ParseInt(d) == Some(DigitsValue(PortDigits(d)))
    ensures DigitsValue(PortDigits(d)) < 100000
  {
    var digits := PortDigits(d);
    if d != digits {
      ParseIntTrailingSpace(digits, '\n');
    }
    DigitsBelow(digits);
  }

  /** At most five digits are worth less than 100000. */
  lemma DigitsBelow(d: string)
    requires AllDigits(d) && |d| <= 5
    ensures DigitsValue(d) < 100000
  {
    DigitsValueBound(d);
    assert Pow10(5) == 100000;
    assert Pow10(|d|) <= 100000 by {
      var k := |d|;
      assert k == 0 || k == 1 || k == 2 || k == 3 || k == 4 || k == 5;
      assert Pow10(0) == 1 && Pow10(1) == 10 && Pow10(2) == 100 && Pow10(3) == 1000 && Pow10(4) == 10000;
    }
  }

  /** A matching name is `site-`, the identifier, a dash and the digits,
      perhaps followed by a newline; the port is the value of the digits. */
  lemma MatchingNameShape(name: string)
    requires MatchesSiteFormat(name)
    ensures var parts := Split(name, '-');
      var site := ParseSiteDirName(name);
      && (name == "site-" + site.0 + "-" + PortDigits(parts[2])
          || name == "site-" + site.0 + "-" + PortDigits(parts[2]) + "\n")
      && site.1 == DigitsValue(PortDigits(parts[2]))
  {
    var parts := Split(name, '-');
    PieceShape(name);
    PortFieldValue(parts[2]);
  }

  /** A name with three dash-separated pieces is their join. */
  lemma PieceShape(name: string)
    requires |Split(name, '-')| == 3
    ensures var parts := Split(name, '-');
      name == parts[0] + "-" + parts[1] + "-" + parts[2]
  {
    var parts := Split(name, '-');
    JoinSplit(name, '-');
    assert Join(parts, "-") == parts[0] + "-" + Join(parts[1..], "-");
    assert parts[1..][1..] == [parts[2]];
    assert Join(parts[1..], "-") == parts[1] + "-" + parts[2];
  }

  /** `str(port)` has four or five digits exactly for ports 1000 to 99999. */
  lemma FourOrFiveDigits(port: nat)
    ensures 4 <= |NatToString(port)| <= 5 <==> 1000 <= port < 100000
  {
    assert Pow10(3) == 1000;
    assert Pow10(5) == 100000;
    NatToStringLength(port, 3);
    NatToStringLength(port, 5);
  }

  /** The name of a site with a four- or five-digit port splits into its parts. */
  lemma SplitSiteDirName(id: string, port: nat)
    requires AllWordChars(id)
    ensures Split(SiteDirName(id, port), '-') == ["site", id, NatToString(port)]
  {
    SplitPieces(id, NatToString(port));
  }

  /** Building a name from a word and a port of four or five digits, then
      listing it, gives both back. */
  lemma SiteDirNameRoundTrip(id: string, port: int)
    requires |id| > 0 && AllWordChars(id)
    requires 1000 <= port < 100000
    ensures MatchesSiteFormat(SiteDirName(id, port))
    ensures ParseSiteDirName(SiteDirName(id, port)) == (id, port)
  {
    SplitSiteDirName(id, port);
    FourOrFiveDigits(port);
    NatToStringValue(port);
  }

  /** A port with fewer than four digits makes a name the listing ignores. */
  lemma ShortPortNotListed(id: string, port: nat)
    requires AllWordChars(id) && port < 1000
    ensures !MatchesSiteFormat(SiteDirName(id, port))
  {
    SplitSiteDirName(id, port);
    FourOrFiveDigits(port);
  }

  /** Parsing then building is not the identity: a zero-padded port such
      as the `01234` of `site-a-01234` is read as its value, and the name
      built from that value has no padding. */
  lemma ZeroPaddedPort(id: string, d: string)
    requires |id| > 0 && AllWordChars(id)
    requires 4 <= |d| <= 5 && AllDigits(d) && d[0] == '0'
    ensures MatchesSiteFormat("site-" + id + "-" + d)
    ensures ParseSiteDirName("site-" + id + "-" + d) == (id, DigitsValue(d))
    ensures SiteDirName(id, DigitsValue(d)) != "site-" + id + "-" + d
  {
    var name := "site-" + id + "-" + d;
    SplitPieces(id, d);
    if SiteDirName(id, DigitsValue(d)) == name {
      SplitSiteDirName(id, DigitsValue(d));
      NoLeadingZero(DigitsValue(d));
      assert false;
    }
  }

  /** `site-<word>-<digits>` splits into its three pieces. */
  lemma SplitPieces(id: string, d: string)
    requires AllWordChars(id) && (IsPortField(d) || AllDigits(d))
    ensures Split("site-" + id + "-" + d, '-') == ["site", id, d]
  {
    var parts := ["site", id, d];
    assert '-' !in id by {
      assert forall k :: 0 <= k < |id| ==> id[k] != '-';
    }
    assert '-' !in d by {
      if !AllDigits(d) {
        assert forall k :: 0 <= k < |d| - 1 ==> d[..|d| - 1][k] == d[k];
      }
      assert forall k :: 0 <= k < |d| ==> d[k] != '-';
    }
    assert Join(parts[1..], "-") == id + "-" + d;
    assert "site-" + id + "-" + d == Join(parts, "-");
    SplitJoin(parts, '-');
  }

  // ---------------------------------------------------------------------------
  // Listing

  /** `list_sites`: the directories of `BASE` whose name matches
      `SITE_FORMAT`, as (identifier, port), in listing order. */
  function ListSites(listing: Listing): (sites: seq<SiteRef>)
    ensures |sites| <= |listing|
    ensures forall k :: 0 <= k < |sites| ==> |sites[k].0| > 0 && AllWordChars(sites[k].0)
    decreases |listing|
  {
    if |listing| == 0 then []
    else
      var e := listing[0];
      (if e.isDir && MatchesSiteFormat(e.name) then [ParseSiteDirName(e.name)] else [])
      + ListSites(listing[1..])
  }

  lemma {:induction false} ListSitesAppend(a: Listing, b: Listing)
    ensures ListSites(a + b) == ListSites(a) + ListSites(b)
    decreases |a|
  {
    if |a| == 0 {
      assert a + b == b;
    } else {
      assert (a + b)[0] == a[0] && (a + b)[1..] == a[1..] + b;
      ListSitesAppend(a[1..], b);
    }
  }

  /** Creating the directory of a site appends exactly that site to the list. */
  lemma ListAfterMkdir(listing: Listing, id: string, port: int)
    requires |id| > 0 && AllWordChars(id)
    requires 1000 <= port < 100000
    ensures ListSites(listing + [SiteRegistry.Entry(SiteDirName(id, port), true)]) == ListSites(listing) + [(id, port)]
  {
    SiteDirNameRoundTrip(id, port);
    ListSitesAppend(listing, [SiteRegistry.Entry(SiteDirName(id, port), true)]);
  }

  /** A site directory whose name ends in a newline is listed as the site:
      `$` accepts the newline and `int` drops it from the port. */
  lemma NewlineNameListed(id: string, port: int)
    requires |id| > 0 && AllWordChars(id)
    requires 1000 <= port < 100000
    ensures ListSites([SiteRegistry.Entry(SiteDirName(id, port) + "\n", true)]) == [(id, port)]
  {
    var d := NatToString(port);
    var dn := d + "\n";
    var name := SiteDirName(id, port) + "\n";
    FourOrFiveDigits(port);
    NatToStringValue(port);
    assert dn[..|dn| - 1] == d;
    assert name == "site-" + id + "-" + dn;
    SplitPieces(id, dn);
    PortFieldValue(dn);
    assert PortDigits(dn) == d;
  }

  /** A file, or a directory whose name does not match, is not listed. */
  lemma IgnoredEntry(listing: Listing, e: SiteRegistry.Entry)
    requires !e.isDir || !MatchesSiteFormat(e.name)
    ensures ListSites(listing + [e]) == ListSites(listing)
  {
    ListSitesAppend(listing, [e]);
  }

  // ---------------------------------------------------------------------------
  // Finding a site

  /** The listed sites with identifier `id`, in listing order. */
  function WithId(sites: seq<SiteRef>, id: string): (r: seq<SiteRef>)
    ensures |r| <= |sites|
    ensures forall x :: x in r <==> x in sites && x.0 == id
    decreases |sites|
  {
    if |sites| == 0 then []
    else (if sites[0].0 == id then [sites[0]] else []) + WithId(sites[1..], id)
  }

  /** Two listed sites with the same identifier are both kept. */
  lemma {:induction false} WithIdKeepsBoth(sites: seq<SiteRef>, id: string, i: nat, j: nat)
    requires i < j < |sites| && sites[i].0 == id && sites[j].0 == id
    ensures |WithId(sites, id)| >= 2
    decreases i
  {
    if i == 0 {
      assert sites[1..][j - 1] == sites[j];
      assert sites[j] in WithId(sites[1..], id);
    } else {
      WithIdKeepsBoth(sites[1..], id, i - 1, j - 1);
    }
  }

  /** `find_site(id)`: the listed site with identifier `id` when there is
      exactly one, None when there is none and also when there are several. */
  function FindSite(listing: Listing, id: string): (r: Option<SiteRef>)
    ensures r.None? <==> |WithId(ListSites(listing), id)| != 1
    ensures r.Some? ==> r.value.0 == id && r.value in ListSites(listing)
  {
    var found := WithId(ListSites(listing), id);
    if |found| == 1 then Some(found[0]) else None
  }

  /** What `find_site` returns is the only listed site with that identifier. */
  lemma FoundIsUnique(listing: Listing, id: string, x: SiteRef)
    requires FindSite(listing, id).Some?
    requires x in ListSites(listing) && x.0 == id
    ensures x == FindSite(listing, id).value
  {
    var found := WithId(ListSites(listing), id);
    assert x in found;
    assert found == [found[0]];
  }

  /** An identifier nobody lists is not found. */
  lemma AbsentNotFound(listing: Listing, id: string)
    requires forall k :: 0 <= k < |ListSites(listing)| ==> ListSites(listing)[k].0 != id
    ensures FindSite(listing, id).None?
  {
    var found := WithId(ListSites(listing), id);
    if |found| > 0 {
      assert found[0] in found;
    }
  }

  /** An identifier listed twice, whatever the ports, is not found either. */
  lemma DuplicateNotFound(listing: Listing, id: string, i: nat, j: nat)
    requires i < j < |ListSites(listing)|
    requires ListSites(listing)[i].0 == id && ListSites(listing)[j].0 == id
    ensures FindSite(listing, id).None?
  {
    WithIdKeepsBoth(ListSites(listing), id, i, j);
  }

  // ---------------------------------------------------------------------------
  // Ports

  /** The ports read from the listed directory names. */
  function UsedPorts(listing: Listing): (used: set<int>)
    ensures forall x :: x in ListSites(listing) ==> x.1 in used
    ensures forall p :: p in used ==> exists x :: x in ListSites(listing) && x.1 == p
  {
    set x | x in ListSites(listing) :: x.1
  }

  /** `find_unused_port`: the least candidate no listed directory name
      carries; None where `next` raises StopIteration. */
  function FindUnusedPort(listing: Listing): (r: Option<int>)
    ensures r.Some? ==> Ports.IsCandidate(r.value)
    ensures r.Some? ==> forall x :: x in ListSites(listing) ==> x.1 != r.value
    ensures r.Some? ==> forall q :: Ports.IsCandidate(q) && q < r.value ==>
      exists x :: x in ListSites(listing) && x.1 == q
    ensures r.None? <==> forall q :: Ports.IsCandidate(q) ==>
      exists x :: x in ListSites(listing) && x.1 == q
  {
    Ports.FindUnusedPort(UsedPorts(listing))
  }

  /** Every port the allocator hands out names a directory the listing
      reads back. */
  lemma AllocatedPortListed(listing: Listing, id: string)
    requires IsValid(id) && FindUnusedPort(listing).Some?
    ensures var port := FindUnusedPort(listing).value;
      MatchesSiteFormat(SiteDirName(id, port)) && ParseSiteDirName(SiteDirName(id, port)) == (id, port)
  {
    ValidShape(id);
    SiteDirNameRoundTrip(id, FindUnusedPort(listing).value);
  }

  // ---------------------------------------------------------------------------
  // MySQL

  /** `db`, `db/run`, `db/log`, in creation order. */
  function DbDirs(dir: string): seq<string> {
    [SiteLayout.DbDir(dir)] + Children(SiteLayout.DbDir(dir), ["run", "log"])
  }

  function MysqlConf(dir: string): string {
    Paths.Join(dir, "mysql.conf")
  }

  /** The tags of the configuration: the database port, the user, the
      directory and the base port as server id. */
  function MysqlConfTags(cfg: Config, dir: string, port: int): seq<(string, string)> {
    [ ("PORT", IntToString(port + 2)),
      ("USER", cfg.user),
      ("DIRECTORY", dir),
      ("ID", IntToString(port)) ]
  }

  /** The tags of the three control scripts. */
  function MysqlScriptTags(cfg: Config, id: string, dir: string): seq<(string, string)> {
    [ ("MYSQLD", Desima.BinPath(cfg, "mysqld")),
      ("MYSQLCONF", MysqlConf(dir)),
      ("SITE", id),
      ("LOGFILE", Paths.Join(Paths.Join(SiteLayout.DbDir(dir), "log"), "mysqld.log")),
      ("PIDFILE", Paths.Join(Paths.Join(SiteLayout.DbDir(dir), "run"), "mysqld.pid")) ]
  }

  /** The `start`, `stop` and `isrunning` scripts of a server, read-and-execute. */
  function ScriptFiles(prefix: string, server: SiteRegistry.Server): (files: seq<FileSpec>)
    ensures |files| == 3 && forall k :: 0 <= k < |files| ==> files[k].mode == ReadExec
  {
    [ FileSpec(Desima.ScriptTemplate(prefix, SiteRegistry.Start), SiteRegistry.ScriptName(server, SiteRegistry.Start), ReadExec),
      FileSpec(Desima.ScriptTemplate(prefix, SiteRegistry.Stop), SiteRegistry.ScriptName(server, SiteRegistry.Stop), ReadExec),
      FileSpec(Desima.ScriptTemplate(prefix, SiteRegistry.IsRunning), SiteRegistry.ScriptName(server, SiteRegistry.IsRunning),
               ReadExec) ]
  }

  /** The configuration, rendered read-only. */
  function MysqlConfWrite(cfg: Config, dir: string, port: int): Action {
    Write(MysqlConf(dir), Tagged(SiteRegistry.TemplatePath(cfg, "mysql.conf.template"), MysqlConfTags(cfg, dir, port)),
          Some(ReadOnly))
  }

  function InstallDbCommand(cfg: Config, dir: string): Command {
    [Desima.BinPath(cfg, "mysql_install_db"), "--defaults-file=" + MysqlConf(dir)]
  }

  /** `<site_directory(id, port)>/<server>.<action>`, run unchecked: a
      command no failure can stop, and one that names no other script. */
  function Sdo(cfg: Config, c: SiteRegistry.Control, s: SiteRegistry.Server, id: string, port: int): (a: Action)
    ensures a.Run? && !MayHalt(a) && |a.argv| == 1
  {
    Run([Paths.Join(SiteDirectory(cfg, id, port), SiteRegistry.ScriptName(s, c))], false)
  }

  /** `sdo` runs the script of its own server and action, never that of
      another pair. */
  lemma SdoRunsOwnScript(cfg: Config, c: SiteRegistry.Control, s: SiteRegistry.Server, id: string, port: int,
                         c2: SiteRegistry.Control, s2: SiteRegistry.Server)
    ensures Sdo(cfg, c, s, id, port).argv[0] == Paths.Join(SiteDirectory(cfg, id, port), SiteRegistry.ScriptName(s2, c2))
        <==> (s2, c2) == (s, c)
  {
    var d := SiteDirectory(cfg, id, port);
    if (s2, c2) != (s, c) {
      SiteRegistry.ScriptNamesDistinct(s, c, s2, c2);
      assert SiteRegistry.ScriptName(s, c)[0] == SiteRegistry.ServerName(s)[0];
      assert SiteRegistry.ScriptName(s2, c2)[0] == SiteRegistry.ServerName(s2)[0];
      Paths.JoinInjective(d, SiteRegistry.ScriptName(s, c), SiteRegistry.ScriptName(s2, c2));
    }
  }

  /** `create_default_user`: start the database, feed the script to the
      client, stop the database; nothing is checked, so the stop is issued
      whatever the start or the client did. A non-ASCII identifier makes the
      encoding of the script raise once the database is started and the
      client launched, and the stop is then never reached. */
  function CreateDefaultUser(cfg: Config, id: string, port: int, conf: string): (plan: Plan)
    ensures |plan| == 3 && plan[0] == Sdo(cfg, SiteRegistry.Start, SiteRegistry.Db, id, port)
    ensures forall i :: 0 <= i < |plan| ==> !plan[i].Write? && !plan[i].Mkdir?
    ensures IsAscii(id) ==> NeverHalts(plan) && plan[2] == Sdo(cfg, SiteRegistry.Stop, SiteRegistry.Db, id, port)
    ensures !IsAscii(id) ==> !MayHalt(plan[1]) && plan[2] == Crash(Desima.EncodeError)
  {
    Desima.DefaultUserScriptAscii(id);
    var start := Sdo(cfg, SiteRegistry.Start, SiteRegistry.Db, id, port);
    var stop := Sdo(cfg, SiteRegistry.Stop, SiteRegistry.Db, id, port);
    var script := Desima.DefaultUserScript(id);
    if IsAscii(script) then
      [start, Feed(Desima.MysqlClient(conf), Literal(script)), stop]
    else
      [start, Run(Desima.MysqlClient(conf), false), Crash(Desima.EncodeError)]
  }

  /** Running the user creation reaches the stop of the database exactly
      when the identifier is ASCII. */
  lemma DefaultUserStopIssued(cfg: Config, id: string, port: int, conf: string, fails: Command -> bool)
    ensures var o := Execute(CreateDefaultUser(cfg, id, port, conf), fails);
      && (o.completed <==> IsAscii(id))
      && (Sdo(cfg, SiteRegistry.Stop, SiteRegistry.Db, id, port) in o.performed <==> IsAscii(id))
  {
    var plan := CreateDefaultUser(cfg, id, port, conf);
    var stop := Sdo(cfg, SiteRegistry.Stop, SiteRegistry.Db, id, port);
    if IsAscii(id) {
      NeverHaltsCompletes(plan, fails);
      assert plan[2] == stop;
    } else {
      assert !Halts(plan[0], fails) && !Halts(plan[1], fails) && Halts(plan[2], fails);
      StopsAt(plan, fails, 2);
      assert plan[..3] == plan;
      SdoRunsOwnScript(cfg, SiteRegistry.Start, SiteRegistry.Db, id, port, SiteRegistry.Stop, SiteRegistry.Db);
      SdoRunsOwnScript(cfg, SiteRegistry.Stop, SiteRegistry.Db, id, port, SiteRegistry.Stop, SiteRegistry.Db);
      assert plan[0] != stop && plan[1] != stop && plan[2] != stop;
    }
  }

  /** `install_mysql(id, port, dir)` step by step: the three directories,
      the configuration, the system tables, the three scripts, the user. */
  function MysqlPlan(cfg: Config, id: string, port: int, dir: string): (plan: Plan)
    ensures |plan| == 11
  {
    MkdirEach(DbDirs(dir))
    + [MysqlConfWrite(cfg, dir, port), Run(InstallDbCommand(cfg, dir), true)]
    + Desima.TemplateToFiles(cfg, dir, ScriptFiles("mysql", SiteRegistry.Db), MysqlScriptTags(cfg, id, dir))
    + CreateDefaultUser(cfg, id, port, MysqlConf(dir))
  }

  /** The order of this MySQL installation: the configuration is written
      before `mysql_install_db` reads it, the scripts only afterwards, that
      command is the only step that can stop the installation unless the
      identifier is not ASCII, and the last step stops the database, or is
      the encoding error for a non-ASCII identifier. */
  lemma MysqlOrder(cfg: Config, id: string, port: int, dir: string)
    ensures var plan := MysqlPlan(cfg, id, port, dir);
      && plan[3] == MysqlConfWrite(cfg, dir, port)
      && plan[4] == Run(InstallDbCommand(cfg, dir), true)
      && (forall i :: 0 <= i < |plan| && plan[i].Write? ==> i == 3 || 5 <= i < 8)
      && (forall i :: 0 <= i < |plan| ==> (MayHalt(plan[i]) <==> i == 4 || (i == 10 && !IsAscii(id))))
      && plan[10] == if IsAscii(id) then Sdo(cfg, SiteRegistry.Stop, SiteRegistry.Db, id, port) else Crash(Desima.EncodeError)
  {
    MysqlParts(cfg, id, port, dir);
    MysqlLayout(MysqlPlan(cfg, id, port, dir), CreateDefaultUser(cfg, id, port, MysqlConf(dir)));
  }

  lemma MysqlWrites(cfg: Config, id: string, port: int, dir: string)
    ensures var plan := MysqlPlan(cfg, id, port, dir);
      forall i :: 0 <= i < |plan| && plan[i].Write? ==> i == 3 || 5 <= i < 8
  {
    MysqlParts(cfg, id, port, dir);
    MysqlLayout(MysqlPlan(cfg, id, port, dir), CreateDefaultUser(cfg, id, port, MysqlConf(dir)));
  }

  lemma MysqlHalts(cfg: Config, id: string, port: int, dir: string)
    ensures var plan := MysqlPlan(cfg, id, port, dir);
      && (forall i :: 0 <= i < |plan| ==> (MayHalt(plan[i]) <==> i == 4 || (i == 10 && !IsAscii(id))))
      && plan[10] == if IsAscii(id) then Sdo(cfg, SiteRegistry.Stop, SiteRegistry.Db, id, port) else Crash(Desima.EncodeError)
  {
    MysqlParts(cfg, id, port, dir);
    MysqlLayout(MysqlPlan(cfg, id, port, dir), CreateDefaultUser(cfg, id, port, MysqlConf(dir)));
  }

  /** A plan laid out as this MySQL installation (directories, a write, a
      checked command, writes, then a plan whose first two steps cannot
      halt and which writes nothing) can halt only at the checked command
      and at the last step if that one may, and writes only at the
      configuration and script steps. */
  lemma MysqlLayout(plan: Plan, user: Plan)
    requires |plan| == 11 && |user| == 3 && !MayHalt(user[0]) && !MayHalt(user[1])
    requires forall i :: 0 <= i < 3 ==> plan[i].Mkdir? && !user[i].Write?
    requires plan[3].Write? && plan[4].Run? && plan[4].checked
    requires forall i :: 5 <= i < 8 ==> plan[i].Write?
    requires forall i :: 8 <= i < 11 ==> plan[i] == user[i - 8]
    ensures forall i :: 0 <= i < |plan| ==> (MayHalt(plan[i]) <==> i == 4 || (i == 10 && MayHalt(user[2])))
    ensures forall i :: 0 <= i < |plan| && plan[i].Write? ==> i == 3 || 5 <= i < 8
  {
    forall i | 8 <= i < 11
      ensures (MayHalt(plan[i]) <==> i == 10 && MayHalt(user[2])) && !plan[i].Write?
    {
      assert plan[i] == user[i - 8];
    }
  }

  /** Where each part of the MySQL installation sits in its plan. */
  lemma MysqlParts(cfg: Config, id: string, port: int, dir: string)
    ensures var plan := MysqlPlan(cfg, id, port, dir);
      && (forall i :: 0 <= i < 3 ==> plan[i].Mkdir?)
      && plan[3] == MysqlConfWrite(cfg, dir, port)
      && plan[4] == Run(InstallDbCommand(cfg, dir), true)
      && (forall i :: 5 <= i < 8 ==> plan[i].Write? && plan[i].mode == Some(ReadExec))
      && (forall i :: 8 <= i < 11 ==> plan[i] == CreateDefaultUser(cfg, id, port, MysqlConf(dir))[i - 8])
  {
    var head := MkdirEach(DbDirs(dir)) + [MysqlConfWrite(cfg, dir, port), Run(InstallDbCommand(cfg, dir), true)];
    var scripts := Desima.TemplateToFiles(cfg, dir, ScriptFiles("mysql", SiteRegistry.Db), MysqlScriptTags(cfg, id, dir));
    var user := CreateDefaultUser(cfg, id, port, MysqlConf(dir));
    assert MysqlPlan(cfg, id, port, dir) == head + scripts + user;
    assert |head| == 5 && |scripts| == 3 && |user| == 3;
    Effects.PartsOf3(head, scripts, user);
  }

  /** The control scripts are the rows after the configuration in the
      single-table installers: the same templates, names and modes. */
  lemma ScriptFilesAsInDesima()
    ensures ScriptFiles("mysql", SiteRegistry.Db) == Desima.MysqlFiles()[1..]
  {
  }

  /** In the configuration, `***PORT***` renders as the database port and
      `***ID***` as the base port. */
  lemma MysqlConfPortsRendered(cfg: Config, dir: string, port: int)
    ensures GenerateConfiguration(Marker("PORT"), MysqlConfTags(cfg, dir, port)) == IntToString(Ports.DbPort(port))
    ensures GenerateConfiguration(Marker("ID"), MysqlConfTags(cfg, dir, port)) == IntToString(port)
  {
    var tags := MysqlConfTags(cfg, dir, port);
    Desima.NumeralHasNoStar(port + 2);
    RenderSingleTag("PORT", tags, 0);
    Desima.MarkerTooLong("ID", "PORT");
    Desima.MarkerTooLong("ID", "USER");
    Desima.MarkerTooLong("ID", "DIRECTORY");
    Desima.NumeralHasNoStar(port);
    RenderSingleTag("ID", tags, 3);
  }

  // ---------------------------------------------------------------------------
  // Apache

  /** The tags `install_apache2` renders its four files with. */
  function ApacheTags(cfg: Config, id: string, port: int, dir: string): seq<(string, string)> {
    [ ("SERVERROOT", SiteLayout.WwwDir(dir)),
      ("SERVERNAME", cfg.user + "-" + id),
      ("HTTP_PORT", IntToString(port)),
      ("HTTPS_PORT", IntToString(port + 1)),
      ("USER", cfg.user),
      ("GROUP", cfg.user),
      ("LOCKDIR", Paths.Join(SiteLayout.WwwDir(dir), "lock")),
      ("PIDFILE", Paths.Join(Paths.Join(SiteLayout.WwwDir(dir), "run"), "apache.pid")),
      ("LOGDIR", Paths.Join(SiteLayout.WwwDir(dir), "log")),
      ("SITE", id),
      ("APACHECONF", Paths.Join(dir, "apache2.conf")) ]
  }

  /** `install_apache2(id, port, dir)`: the five directories, `apache2 -v`,
      then the four files. */
  function ApachePlan(cfg: Config, host: Host, id: string, port: int, dir: string): (plan: Plan)
    ensures |plan| == 10
  {
    MkdirEach(SiteLayout.WwwDirs(dir)) + [Run(VersionCommand, true)]
    + Desima.TemplateToFiles(cfg, dir, Desima.ApacheFiles(ApacheVersion(host.apacheBanner)), ApacheTags(cfg, id, port, dir))
  }

  /** The Apache installer did not change between the generations: given
      the directory of `desima.py`, it plans the same steps. */
  lemma ApacheAsInDesima(cfg: Config, host: Host, id: string, port: int)
    ensures ApachePlan(cfg, host, id, port, SiteRegistry.SiteDirectory(cfg, id)) == Desima.ApachePlan(cfg, host, id, port)
  {
    var dir := SiteRegistry.SiteDirectory(cfg, id);
    assert SiteLayout.WwwDirs(dir) == Desima.WwwDirs(cfg, id);
    assert ApacheTags(cfg, id, port, dir) == Desima.ApacheTags(cfg, id, port);
  }

  // ---------------------------------------------------------------------------
  // Lifecycle

  /** `install_site(id, port)`: an invalid identifier, then one `find_site`
      finds, raises ValueError before any effect; otherwise the site
      directory, then MySQL, then Apache. */
  function InstallSite(cfg: Config, host: Host, listing: Listing, id: string, port: int)
    : (r: Result<Plan, SiteRegistry.SiteError>)
    ensures !IsValid(id) ==> r == Failure(SiteRegistry.InvalidSiteId)
    ensures IsValid(id) && FindSite(listing, id).Some? ==> r == Failure(SiteRegistry.AlreadyExists)
    ensures r.Success? <==> IsValid(id) && FindSite(listing, id).None?
    ensures r.Success? ==> |r.value| == 22 && r.value[0] == Mkdir(SiteDirectory(cfg, id, port))
  {
    if !IsValid(id) then Failure(SiteRegistry.InvalidSiteId)
    else if FindSite(listing, id).Some? then Failure(SiteRegistry.AlreadyExists)
    else
      var dir := SiteDirectory(cfg, id, port);
      Success([Mkdir(dir)] + MysqlPlan(cfg, id, port, dir) + ApachePlan(cfg, host, id, port, dir))
  }

  /** An installation that passes its checks creates a directory the
      listing then finds, with the port it was given, when that port has
      four or five digits and the identifier was not listed. */
  lemma InstalledSiteFound(cfg: Config, host: Host, listing: Listing, id: string, port: int)
    requires IsValid(id) && 1000 <= port < 100000
    requires forall k :: 0 <= k < |ListSites(listing)| ==> ListSites(listing)[k].0 != id
    ensures InstallSite(cfg, host, listing, id, port).Success?
    ensures FindSite(listing + [SiteRegistry.Entry(SiteDirName(id, port), true)], id) == Some((id, port))
  {
    AbsentNotFound(listing, id);
    ValidShape(id);
    ListAfterMkdir(listing, id, port);
    var after := ListSites(listing) + [(id, port)];
    assert WithId(after, id) == [(id, port)] by {
      WithIdAppendOne(ListSites(listing), id, (id, port));
    }
  }

  /** Filtering a list with one more site after sites without the identifier. */
  lemma {:induction false} WithIdAppendOne(sites: seq<SiteRef>, id: string, x: SiteRef)
    requires forall k :: 0 <= k < |sites| ==> sites[k].0 != id
    requires x.0 == id
    ensures WithId(sites + [x], id) == [x]
    decreases |sites|
  {
    if |sites| == 0 {
      assert (sites + [x])[1..] == [];
    } else {
      assert (sites + [x])[1..] == sites[1..] + [x];
      WithIdAppendOne(sites[1..], id, x);
    }
  }

  /** With two directories for the same identifier, `find_site` finds
      nothing, so a third installation under that identifier goes ahead. */
  lemma DuplicatesAllowReinstall(cfg: Config, host: Host, id: string, p1: int, p2: int, port: int)
    requires IsValid(id) && 1000 <= p1 < 100000 && 1000 <= p2 < 100000
    ensures var listing := [SiteRegistry.Entry(SiteDirName(id, p1), true), SiteRegistry.Entry(SiteDirName(id, p2), true)];
      InstallSite(cfg, host, listing, id, port).Success?
  {
    var e1 := SiteRegistry.Entry(SiteDirName(id, p1), true);
    var e2 := SiteRegistry.Entry(SiteDirName(id, p2), true);
    ValidShape(id);
    ListAfterMkdir([e1], id, p2);
    ListAfterMkdir([], id, p1);
    assert [] + [e1] == [e1];
    DuplicateNotFound([e1, e2], id, 0, 1);
  }

  /** `remove_site(id)`: the checks of the installation's mirror image, and
      nothing else; the listing is left as it was. */
  function RemoveSite(listing: Listing, id: string): (r: Result<Listing, SiteRegistry.SiteError>)
    ensures !IsValid(id) ==> r == Failure(SiteRegistry.InvalidSiteId)
    ensures IsValid(id) && FindSite(listing, id).None? ==> r == Failure(SiteRegistry.UnknownSite)
    ensures r.Success? <==> IsValid(id) && FindSite(listing, id).Some?
    ensures r.Success? ==> r.value == listing && FindSite(r.value, id).Some?
  {
    if !IsValid(id) then Failure(SiteRegistry.InvalidSiteId)
    else if FindSite(listing, id).None? then Failure(SiteRegistry.UnknownSite)
    else Success(listing)
  }
}
