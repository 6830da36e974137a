/** The site registry shared by `desima.py` and the `desima` package: a site
    `id` lives in the directory `BASE/site-<id>`, its base port in the file
    `PORT` inside it, and its two servers are driven by the scripts
    `db.*` and `www.*` next to that file. */
module SiteRegistry {
  import opened Wrappers
  import opened Text
  import opened SiteIds
  import Paths
  import Ports
  import opened Effects

  /** The environment both generations read once at start-up: `BASE`
      (`~/www` expanded) and `USERNAME`. */
  datatype Config = Config(base: string, user: string)

  /** `BASE` is a non-empty path with no trailing slash, as `expanduser`
      gives it. */
  predicate WellFormed(cfg: Config) {
    |cfg.base| > 0 && cfg.base[|cfg.base| - 1] != '/'
  }

  /** Where template files are read from: `BASE/template/<name>`. */
  function TemplatePath(cfg: Config, template: string): string {
    Paths.Join(Paths.Join(cfg.base, "template"), template)
  }

  /** One entry of `listdir(BASE)` and whether it is a directory. */
  datatype Entry = Entry(name: string, isDir: bool)

  type Listing = seq<Entry>

  // ---------------------------------------------------------------------------
  // Directory names

  /** What `SITE_FORMAT` lets through after `site-`: a word, which `$`
      also accepts when one final newline follows it. */
  predicate IsListedId(id: string) {
    || (|id| > 0 && AllWordChars(id))
    || (|id| > 1 && id[|id| - 1] == '\n' && AllWordChars(id[..|id| - 1]))
  }

  /** `SITE_FORMAT`, `^site-\w+$`, matched against a whole entry name: a
      name matches exactly when it is `site-` and a word, with or without
      one final newline. */
  predicate MatchesSiteFormat(name: string): (r: bool)
    ensures r <==> exists w :: |w| > 0 && AllWordChars(w) && (name == "site-" + w || name == "site-" + w + "\n")
  {
    SiteFormatShape(name);
    |name| > 5 && name[..5] == "site-" && IsListedId(name[5..])
  }

  lemma SiteFormatShape(name: string)
    ensures |name| > 5 && name[..5] == "site-" && IsListedId(name[5..])
        <==> exists w :: |w| > 0 && AllWordChars(w) && (name == "site-" + w || name == "site-" + w + "\n")
  {
    if |name| > 5 && name[..5] == "site-" && IsListedId(name[5..]) {
      var id := name[5..];
      var w := if AllWordChars(id) then id else id[..|id| - 1];
      assert name == "site-" + w || name == "site-" + w + "\n";
    }
    if exists w :: |w| > 0 && AllWordChars(w) && (name == "site-" + w || name == "site-" + w + "\n") {
      var w :| |w| > 0 && AllWordChars(w) && (name == "site-" + w || name == "site-" + w + "\n");
      assert name[..5] == "site-";
      if name == "site-" + w {
        assert name[5..] == w;
      } else {
        assert name[5..] == w + "\n" && (w + "\n")[..|w|] == w;
      }
    }
  }

  /** The basename `site-<id>` that `site_directory` puts under `BASE`. */
  function SiteDirName(id: string): string {
    "site-" + id
  }

  /** `site_directory(id)`: `site-<id>` inside `BASE`. */
  function SiteDirectory(cfg: Config, id: string): (d: string)
    ensures EndsWith(d, SiteDirName(id))
    ensures WellFormed(cfg) ==> d == cfg.base + "/" + SiteDirName(id)
  {
    Paths.Join(cfg.base, SiteDirName(id))
  }

  /** `name.split('-')` of a matching name is `["site", <id>]`. */
  lemma SplitSiteDirName(word: string)
    requires IsListedId(word)
    ensures Split(SiteDirName(word), '-') == ["site", word]
  {
    assert forall k :: 0 <= k < |word| ==> word[k] != '-' by {
      if !AllWordChars(word) {
        assert forall k :: 0 <= k < |word| - 1 ==> word[..|word| - 1][k] == word[k];
      }
    }
    assert '-' !in "site";
    assert SiteDirName(word) == "site" + ['-'] + word;
    SplitAtFirst("site", word, '-');
    SplitNoSep(word, '-');
  }

  /** `entry.split('-')[1]`: the identifier a matching directory name stands for. */
  function SiteIdOf(name: string): (id: string)
    requires MatchesSiteFormat(name)
    ensures IsListedId(id)
    ensures SiteDirName(id) == name
  {
    var word := name[5..];
    assert name == SiteDirName(word);
    SplitSiteDirName(word);
    Split(name, '-')[1]
  }

  /** Building then parsing a directory name gives the identifier back. */
  lemma DirNameRoundTrip(id: string)
    requires IsListedId(id)
    ensures MatchesSiteFormat(SiteDirName(id))
    ensures SiteIdOf(SiteDirName(id)) == id
  {
    assert SiteDirName(id)[5..] == id;
  }

  /** Every valid identifier has a directory name the listing recognises. */
  lemma ValidIdRoundTrip(id: string)
    requires IsValid(id)
    ensures MatchesSiteFormat(SiteDirName(id)) && SiteIdOf(SiteDirName(id)) == id
  {
    ValidShape(id);
    DirNameRoundTrip(id);
  }

  // ---------------------------------------------------------------------------
  // Listing

  /** `list_sites`: the identifiers of the directories of `BASE` whose name
      matches `SITE_FORMAT`, in listing order. */
  function ListSites(listing: Listing): (ids: seq<string>)
    ensures |ids| <= |listing|
    ensures forall k :: 0 <= k < |ids| ==> IsListedId(ids[k])
    decreases |listing|
  {
    if |listing| == 0 then []
    else
      var e := listing[0];
      (if e.isDir && MatchesSiteFormat(e.name) then [SiteIdOf(e.name)] else [])
      + ListSites(listing[1..])
  }

  lemma {:induction false} ListSitesAppend(a: Listing, b: Listing)
    ensures ListSites(a + b) == ListSites(a) + ListSites(b)
    decreases |a|
  {
    if |a| == 0 {
      assert a + b == b;
    } else {
      assert (a + b)[0] == a[0] && (a + b)[1..] == a[1..] + b;
      ListSitesAppend(a[1..], b);
    }
  }

  /** A word, or a word and a newline, is listed exactly when its directory
      is in the listing; nothing else is ever listed. */
  lemma {:induction false} ListedIff(listing: Listing, id: string)
    ensures id in ListSites(listing) ==> IsListedId(id)
    ensures IsListedId(id) ==>
      (id in ListSites(listing) <==> Entry(SiteDirName(id), true) in listing)
    decreases |listing|
  {
    if |listing| > 0 {
      ListedIff(listing[1..], id);
      var e := listing[0];
      assert listing == [e] + listing[1..];
      if e.isDir && MatchesSiteFormat(e.name) {
        var s := SiteIdOf(e.name);
        assert s == id <==> e == Entry(SiteDirName(id), true);
      } else {
        if IsListedId(id) {
          DirNameRoundTrip(id);
          assert e != Entry(SiteDirName(id), true);
        }
      }
    }
  }

  /** `find_site`. */
  function FindSite(listing: Listing, id: string): (found: bool)
    ensures IsListedId(id) ==> (found <==> Entry(SiteDirName(id), true) in listing)
    ensures !IsListedId(id) ==> !found
  {
    ListedIff(listing, id);
    assert IsValid(id) ==> IsListedId(id) by {
      if IsValid(id) { ValidShape(id); }
    }
    id in ListSites(listing)
  }

  /** Creating the directory of a valid site adds exactly that site to the listing. */
  lemma ListAfterMkdir(listing: Listing, id: string)
    requires IsValid(id)
    ensures forall x :: x in ListSites(listing + [Entry(SiteDirName(id), true)]) <==>
      x in ListSites(listing) || x == id
  {
    ValidIdRoundTrip(id);
    ListSitesAppend(listing, [Entry(SiteDirName(id), true)]);
    assert ListSites([Entry(SiteDirName(id), true)]) == [id];
  }

  /** The listing without the entries called `name`. */
  function WithoutEntry(listing: Listing, name: string): (r: Listing)
    ensures forall e :: e in r <==> e in listing && e.name != name
    decreases |listing|
  {
    if |listing| == 0 then []
    else (if listing[0].name == name then [] else [listing[0]]) + WithoutEntry(listing[1..], name)
  }

  /** Deleting the directory of a site removes exactly that site from the listing. */
  lemma ListAfterRemoval(listing: Listing, id: string)
    requires IsValid(id)
    ensures forall x :: x in ListSites(WithoutEntry(listing, SiteDirName(id))) <==>
      x in ListSites(listing) && x != id
  {
    var rest := WithoutEntry(listing, SiteDirName(id));
    forall x
      ensures x in ListSites(rest) <==> x in ListSites(listing) && x != id
    {
      ListedIff(rest, x);
      ListedIff(listing, x);
      if IsListedId(x) && x != id {
        assert SiteDirName(x) != SiteDirName(id) by {
          assert SiteDirName(x)[5..] == x && SiteDirName(id)[5..] == id;
        }
      }
    }
  }

  /** A directory `site-<word>` followed by a newline is listed as the word
      and the newline, an identifier that the validity check refuses. */
  lemma NewlineDirectoryListed(w: string)
    requires |w| > 0 && AllWordChars(w)
    ensures ListSites([Entry("site-" + w + "\n", true)]) == [w + "\n"]
    ensures FindSite([Entry("site-" + w + "\n", true)], w + "\n") && !IsValid(w + "\n")
  {
    var id := w + "\n";
    assert id[..|id| - 1] == w;
    DirNameRoundTrip(id);
    assert SiteDirName(id) == "site-" + w + "\n";
    assert !AllWordChars(id) by {
      assert id[|id| - 1] == '\n';
    }
  }

  // ---------------------------------------------------------------------------
  // The PORT file

  function PortFilePath(cfg: Config, id: string): string {
    Paths.Join(SiteDirectory(cfg, id), "PORT")
  }

  /** What `install_site` writes into `PORT`: `str(port)`. */
  function PortFileContent(port: int): string {
    IntToString(port)
  }

  /** `site_port`: `int` of the first 1000 characters of `PORT`; None where
      `int` raises ValueError. */
  function SitePort(content: string): (r: Option<int>)
    ensures |content| <= 1000 ==> r == ParseInt(content)
  {
    var k := if |content| < 1000 then |content| else 1000;
    assert content[..|content|] == content;
    ParseInt(content[..k])
  }

  /** Reading `PORT` back gives the port written, whenever its decimal form
      fits the 1000 characters read. */
  lemma PortFileRoundTrip(port: int)
    requires |PortFileContent(port)| <= 1000
    ensures SitePort(PortFileContent(port)) == Some(port)
  {
    var c := PortFileContent(port);
    assert c[..|c|] == c;
    ParseIntRoundTrip(port);
  }

  /** Every allocatable port is written with five digits. */
  lemma CandidatePortFileLength(port: int)
    requires Ports.IsCandidate(port)
    ensures |PortFileContent(port)| == 5
  {
    assert Pow10(4) == 10000 && Pow10(5) == 100000;
    NatToStringLength(port, 5);
    NatToStringLength(port, 4);
  }

  lemma CandidatePortRoundTrip(port: int)
    requires Ports.IsCandidate(port)
    ensures SitePort(PortFileContent(port)) == Some(port)
  {
    CandidatePortFileLength(port);
    PortFileRoundTrip(port);
  }

  // ---------------------------------------------------------------------------
  // Control scripts

  datatype Server = Db | Www
  datatype Control = Start | Stop | IsRunning

  function ServerName(s: Server): string {
    match s
    case Db => "db"
    case Www => "www"
  }

  function ControlName(c: Control): string {
    match c
    case Start => "start"
    case Stop => "stop"
    case IsRunning => "isrunning"
  }

  /** `server + '.' + action`. */
  function ScriptName(s: Server, c: Control): string {
    ServerName(s) + "." + ControlName(c)
  }

  /** Which script a name designates, if any. */
  function ParseScriptName(name: string): (r: Option<(Server, Control)>)
    ensures r.Some? ==> ScriptName(r.value.0, r.value.1) == name
  {
    if name == "db.start" then Some((Db, Start))
    else if name == "db.stop" then Some((Db, Stop))
    else if name == "db.isrunning" then Some((Db, IsRunning))
    else if name == "www.start" then Some((Www, Start))
    else if name == "www.stop" then Some((Www, Stop))
    else if name == "www.isrunning" then Some((Www, IsRunning))
    else None
  }

  /** Every script name parses back to its server and action, so the six
      scripts have six distinct names. */
  lemma ScriptNameRoundTrip(s: Server, c: Control)
    ensures ParseScriptName(ScriptName(s, c)) == Some((s, c))
  {
    var n := ScriptName(s, c);
    match (s, c)
    case (Db, Start) => assert n == "db.start";
    case (Db, Stop) => assert n == "db.stop" && n[5] != "db.start"[5];
    case (Db, IsRunning) => assert n == "db.isrunning";
    case (Www, Start) => assert n == "www.start" && n[0] != 'd';
    case (Www, Stop) => assert n == "www.stop" && n[0] != 'd' && n[6] != "www.start"[6];
    case (Www, IsRunning) => assert n == "www.isrunning" && n[0] != 'd';
  }

  lemma ScriptNamesDistinct(s1: Server, c1: Control, s2: Server, c2: Control)
    requires (s1, c1) != (s2, c2)
    ensures ScriptName(s1, c1) != ScriptName(s2, c2)
  {
    ScriptNameRoundTrip(s1, c1);
    ScriptNameRoundTrip(s2, c2);
  }

  function ScriptPath(cfg: Config, id: string, s: Server, c: Control): string {
    Paths.Join(SiteDirectory(cfg, id), ScriptName(s, c))
  }

  /** Different scripts of a site have different paths. */
  lemma ScriptPathsDistinct(cfg: Config, id: string, s1: Server, c1: Control, s2: Server, c2: Control)
    requires (s1, c1) != (s2, c2)
    ensures ScriptPath(cfg, id, s1, c1) != ScriptPath(cfg, id, s2, c2)
  {
    ScriptNamesDistinct(s1, c1, s2, c2);
    assert ScriptName(s1, c1)[0] == ServerName(s1)[0];
    assert ScriptName(s2, c2)[0] == ServerName(s2)[0];
    Paths.JoinInjective(SiteDirectory(cfg, id), ScriptName(s1, c1), ScriptName(s2, c2));
  }

  /** The scripts of a valid site sit directly in its directory. */
  lemma ScriptInSiteDirectory(cfg: Config, id: string, s: Server, c: Control)
    requires WellFormed(cfg) && IsValid(id)
    ensures Paths.Dirname(ScriptPath(cfg, id, s, c)) == SiteDirectory(cfg, id)
  {
    SiteDirectoryShape(cfg, id);
    ScriptNameIsComponent(s, c);
    Paths.DirnameOfJoin(SiteDirectory(cfg, id), ScriptName(s, c));
  }

  /** A script name holds no `/`. */
  lemma ScriptNameIsComponent(s: Server, c: Control)
    ensures '/' !in ScriptName(s, c)
  {
    assert '/' !in ServerName(s);
    assert '/' !in ControlName(c);
  }

  /** A valid site's directory is `BASE/site-<id>`, directly inside `BASE`. */
  lemma SiteDirectoryShape(cfg: Config, id: string)
    requires WellFormed(cfg) && IsValid(id)
    ensures SiteDirectory(cfg, id) == cfg.base + "/site-" + id
    ensures Paths.Dirname(SiteDirectory(cfg, id)) == cfg.base
    ensures |SiteDirectory(cfg, id)| > 0 && SiteDirectory(cfg, id)[|SiteDirectory(cfg, id)| - 1] != '/'
  {
    ValidShape(id);
    assert '/' !in SiteDirName(id) by {
      assert forall k :: 5 <= k < |SiteDirName(id)| ==> SiteDirName(id)[k] == id[k - 5];
    }
    Paths.DirnameOfJoin(cfg.base, SiteDirName(id));
  }

  /** No other control script of the site shares the path of `(s, c)`'s. */
  lemma ScriptPathUnique(cfg: Config, id: string, s: Server, c: Control)
    ensures forall s2: Server, c2: Control :: (s2, c2) != (s, c) ==> ScriptPath(cfg, id, s2, c2) != ScriptPath(cfg, id, s, c)
  {
    forall s2: Server, c2: Control | (s2, c2) != (s, c)
      ensures ScriptPath(cfg, id, s2, c2) != ScriptPath(cfg, id, s, c)
    {
      ScriptPathsDistinct(cfg, id, s2, c2, s, c);
    }
  }

  /** A call of a control script and the answer `sdo` derives from it. */
  datatype Call = Call(step: Action, ok: bool)

  /** `sdo(action, server, id)`: run the site's script for that server and
      action, without checking its status, and report whether it exited
      with 0. The exit status is an input. */
  function Sdo(cfg: Config, c: Control, s: Server, id: string, exitCode: int): (r: Call)
    ensures r.step.Run? && !r.step.checked && |r.step.argv| == 1
    ensures r.step.argv[0] == ScriptPath(cfg, id, s, c)
    ensures forall s2: Server, c2: Control :: (s2, c2) != (s, c) ==> r.step.argv[0] != ScriptPath(cfg, id, s2, c2)
    ensures r.ok <==> exitCode == 0
  {
    ScriptPathUnique(cfg, id, s, c);
    Call(Run([ScriptPath(cfg, id, s, c)], false), exitCode == 0)
  }

  // ---------------------------------------------------------------------------
  // The registry

  /** A control script of a site: the server it drives and its action. */
  type Script = (Server, Control)

  /** The six control scripts of a complete site. */
  const AllScripts: set<Script> := {(Db, Start), (Db, Stop), (Db, IsRunning), (Www, Start), (Www, Stop), (Www, IsRunning)}

  /** The three control scripts of one server. */
  function ServerScripts(s: Server): set<Script> {
    {(s, Start), (s, Stop), (s, IsRunning)}
  }

  /** The control scripts that a performed plan has written into the site
      directory: exactly those whose path some performed step writes. */
  function ScriptsWritten(cfg: Config, id: string, performed: Plan): (r: set<Script>)
    ensures forall s: Server, c: Control :: (s, c) in r <==> Writes(performed, ScriptPath(cfg, id, s, c))
  {
    set x | x in AllScripts && Writes(performed, ScriptPath(cfg, id, x.0, x.1))
  }

  /** What `sites_states` reports for one site (its port, and whether each
      server's `isrunning` script exits with 0), together with the control
      scripts its directory holds. */
  datatype Site = Site(port: int, wwwRunning: bool, dbRunning: bool, scripts: set<Script>)

  type Registry = map<string, Site>

  /** The ports held by the sites. */
  function UsedPorts(reg: Registry): (used: set<int>)
    ensures forall id :: id in reg ==> reg[id].port in used
    ensures forall p :: p in used ==> exists id :: id in reg && reg[id].port == p
  {
    set id | id in reg :: reg[id].port
  }

  /** `find_unused_port`: the least candidate held by no site; None where
      `next` raises StopIteration. */
  function FindUnusedPort(reg: Registry): (r: Option<int>)
    ensures r.Some? ==> Ports.IsCandidate(r.value)
    ensures r.Some? ==> forall id :: id in reg ==> reg[id].port != r.value
    ensures r.Some? ==> forall q :: Ports.IsCandidate(q) && q < r.value ==>
      exists id :: id in reg && reg[id].port == q
    ensures r.None? <==> forall q :: Ports.IsCandidate(q) ==>
      exists id :: id in reg && reg[id].port == q
  {
    Ports.FindUnusedPort(UsedPorts(reg))
  }

  /** The errors `install_site` and `remove_site` raise as ValueError. */
  datatype SiteError = InvalidSiteId | AlreadyExists | UnknownSite

  /** A lifecycle step: the registry afterwards and the effects that bring
      the machine there. */
  datatype Transition = Transition(registry: Registry, plan: Plan)

  /** What `call` raises for a control script that does not exist. */
  const MissingScript: string := "FileNotFoundError"

  /** Whether stopping a server gets through: its `isrunning` script exists,
      and so does its `stop` script when the server runs. */
  predicate CanStop(s: Server, running: bool, scripts: set<Script>) {
    (s, IsRunning) in scripts && (running ==> (s, Stop) in scripts)
  }

  /** Ask a server whether it runs, and stop it only if so. Calling a script
      that does not exist raises. */
  function StopIfRunning(cfg: Config, id: string, s: Server, running: bool, scripts: set<Script>): (steps: Plan)
    ensures (s, IsRunning) !in scripts ==> steps == [Crash(MissingScript)]
    ensures (s, IsRunning) in scripts ==>
      && |steps| == (if running then 2 else 1)
      && steps[0] == Run([ScriptPath(cfg, id, s, IsRunning)], false)
    ensures NeverHalts(steps) <==> CanStop(s, running, scripts)
    ensures forall i :: 0 <= i < |steps| ==> steps[i] == Crash(MissingScript) || (steps[i].Run? && !steps[i].checked)
  {
    if (s, IsRunning) !in scripts then
      assert [Crash(MissingScript)][0].Crash?;
      [Crash(MissingScript)]
    else
      var probe := Sdo(cfg, IsRunning, s, id, if running then 0 else 1);
      var rest := if !probe.ok then []
                  else if (s, Stop) in scripts then [Sdo(cfg, Stop, s, id, 0).step]
                  else [Crash(MissingScript)];
      assert forall i :: 0 <= i < |rest| ==> ([probe.step] + rest)[1 + i] == rest[i];
      [probe.step] + rest
  }

  /** A server's `stop` script is called while stopping `s` exactly when it
      is `s`'s own, `s` runs, and both its scripts exist. */
  lemma StopCalledIff(cfg: Config, id: string, s: Server, running: bool, scripts: set<Script>, t: Server)
    ensures Run([ScriptPath(cfg, id, t, Stop)], false) in StopIfRunning(cfg, id, s, running, scripts)
        <==> t == s && running && (s, IsRunning) in scripts && (s, Stop) in scripts
  {
    ScriptPathsDistinct(cfg, id, t, Stop, s, IsRunning);
    if t != s {
      ScriptPathsDistinct(cfg, id, t, Stop, s, Stop);
    }
  }

  /** `chmod -R u+w <dir>` then `rm -Rf <dir>`, both checked. */
  function DeleteTree(dir: string): Plan {
    [Run(["chmod", "-R", "u+w", dir], true), Run(["rm", "-Rf", dir], true)]
  }

  /** Whether a site is taken to run the server. */
  function Running(site: Site, s: Server): bool {
    match s
    case Www => site.wwwRunning
    case Db => site.dbRunning
  }

  /** The effects of `remove_site` once the checks have passed: ask each
      server whether it runs (www first) and stop it only if so, then make
      the tree writable and delete it. */
  function RemovalPlan(cfg: Config, id: string, site: Site): (plan: Plan)
    ensures |plan| >= 4
    ensures plan[|plan| - 2] == Run(["chmod", "-R", "u+w", SiteDirectory(cfg, id)], true)
    ensures plan[|plan| - 1] == Run(["rm", "-Rf", SiteDirectory(cfg, id)], true)
    ensures forall t: Server :: (Run([ScriptPath(cfg, id, t, Stop)], false) in plan
      <==> Running(site, t) && (t, IsRunning) in site.scripts && (t, Stop) in site.scripts)
    ensures NeverHalts(plan[..|plan| - 2])
      <==> CanStop(Www, site.wwwRunning, site.scripts) && CanStop(Db, site.dbRunning, site.scripts)
    ensures forall i :: 0 <= i < |plan| - 2 ==> plan[i] == Crash(MissingScript) || (plan[i].Run? && !plan[i].checked)
  {
    var www := StopIfRunning(cfg, id, Www, site.wwwRunning, site.scripts);
    var db := StopIfRunning(cfg, id, Db, site.dbRunning, site.scripts);
    var tail := DeleteTree(SiteDirectory(cfg, id));
    StopCalled(cfg, id, site);
    UncheckedBefore(www, db, tail);
    NeverHaltsAppend(www, db);
    assert (www + db + tail)[..|www + db + tail| - 2] == www + db;
    www + db + tail
  }

  lemma StopCalled(cfg: Config, id: string, site: Site)
    ensures var plan := StopIfRunning(cfg, id, Www, site.wwwRunning, site.scripts)
                        + StopIfRunning(cfg, id, Db, site.dbRunning, site.scripts)
                        + DeleteTree(SiteDirectory(cfg, id));
      forall t: Server :: (Run([ScriptPath(cfg, id, t, Stop)], false) in plan
        <==> Running(site, t) && (t, IsRunning) in site.scripts && (t, Stop) in site.scripts)
  {
    var www := StopIfRunning(cfg, id, Www, site.wwwRunning, site.scripts);
    var db := StopIfRunning(cfg, id, Db, site.dbRunning, site.scripts);
    forall t: Server
      ensures Run([ScriptPath(cfg, id, t, Stop)], false) in www + db + DeleteTree(SiteDirectory(cfg, id))
        <==> Running(site, t) && (t, IsRunning) in site.scripts && (t, Stop) in site.scripts
    {
      StopCalledIff(cfg, id, Www, site.wwwRunning, site.scripts, t);
      StopCalledIff(cfg, id, Db, site.dbRunning, site.scripts, t);
      InBefore(www, db, DeleteTree(SiteDirectory(cfg, id)), Run([ScriptPath(cfg, id, t, Stop)], false));
    }
  }

  lemma InBefore(a: Plan, b: Plan, tail: Plan, x: Action)
    requires x !in tail
    ensures x in a + b + tail <==> x in a || x in b
  {
    if x in a + b + tail {
      var i :| 0 <= i < |a + b + tail| && (a + b + tail)[i] == x;
      if i >= |a + b| {
        assert tail[i - |a + b|] == x;
      }
    }
  }

  lemma UncheckedBefore(a: Plan, b: Plan, tail: Plan)
    requires forall i :: 0 <= i < |a| ==> a[i] == Crash(MissingScript) || (a[i].Run? && !a[i].checked)
    requires forall i :: 0 <= i < |b| ==> b[i] == Crash(MissingScript) || (b[i].Run? && !b[i].checked)
    ensures forall i :: 0 <= i < |a + b + tail| - |tail| ==>
      (a + b + tail)[i] == Crash(MissingScript) || ((a + b + tail)[i].Run? && !(a + b + tail)[i].checked)
  {
    forall i | 0 <= i < |a + b + tail| - |tail|
      ensures (a + b + tail)[i] == Crash(MissingScript) || ((a + b + tail)[i].Run? && !(a + b + tail)[i].checked)
    {
      assert (a + b + tail)[i] == (a + b)[i];
      if i < |a| {
        assert (a + b)[i] == a[i];
      } else {
        assert (a + b)[i] == b[i - |a|];
      }
    }
  }

  /** Removal gets through exactly when both servers can be stopped and
      both `chmod` and `rm` succeed. */
  lemma RemovalCompletes(cfg: Config, id: string, site: Site, fails: Command -> bool)
    ensures Execute(RemovalPlan(cfg, id, site), fails).completed
      <==> && CanStop(Www, site.wwwRunning, site.scripts) && CanStop(Db, site.dbRunning, site.scripts)
           && !fails(["chmod", "-R", "u+w", SiteDirectory(cfg, id)])
           && !fails(["rm", "-Rf", SiteDirectory(cfg, id)])
  {
    CompletesThroughLastTwo(RemovalPlan(cfg, id, site), fails,
                            ["chmod", "-R", "u+w", SiteDirectory(cfg, id)], ["rm", "-Rf", SiteDirectory(cfg, id)]);
  }

  /** A plan that ends with two checked commands, and before them has only
      crashes and unchecked commands, completes exactly when no crash comes
      first and both commands succeed. */
  lemma CompletesThroughLastTwo(plan: Plan, fails: Command -> bool, a: Command, b: Command)
    requires |plan| >= 2 && plan[|plan| - 2] == Run(a, true) && plan[|plan| - 1] == Run(b, true)
    requires forall i :: 0 <= i < |plan| - 2 ==> plan[i].Crash? || (plan[i].Run? && !plan[i].checked)
    ensures Execute(plan, fails).completed <==> NeverHalts(plan[..|plan| - 2]) && !fails(a) && !fails(b)
  {
    var n := |plan|;
    var completed := Execute(plan, fails).completed;
    if NeverHalts(plan[..n - 2]) && !fails(a) && !fails(b) {
      forall i | 0 <= i < n
        ensures !Halts(plan[i], fails)
      {
        if i < n - 2 {
          assert plan[..n - 2][i] == plan[i];
        }
      }
    }
    if completed {
      assert !Halts(plan[n - 2], fails) && !Halts(plan[n - 1], fails);
      var head := plan[..n - 2];
      forall i | 0 <= i < |head|
        ensures !MayHalt(head[i])
      {
        assert head[i] == plan[i];
        assert !Halts(plan[i], fails);
      }
    }
  }

  /** The site's record once some removal steps ran: a server whose `stop`
      script ran is stopped; everything else stays. */
  function AfterStops(cfg: Config, id: string, site: Site, performed: Plan): Site {
    site.(wwwRunning := site.wwwRunning && Run([ScriptPath(cfg, id, Www, Stop)], false) !in performed,
          dbRunning := site.dbRunning && Run([ScriptPath(cfg, id, Db, Stop)], false) !in performed)
  }

  /** `remove_site`: an invalid or unknown identifier is rejected with no
      effect. Otherwise the removal plan runs; the site leaves the registry
      exactly when the plan gets through, which is exactly when both
      servers can be stopped and `chmod` and `rm` succeed. When it does
      not, the site stays, only the servers stopped on the way now counted
      as stopped. Every other site keeps its entry. */
  function RemoveSite(cfg: Config, reg: Registry, id: string, fails: Command -> bool): (r: Result<Transition, SiteError>)
    ensures !IsValid(id) ==> r == Failure(InvalidSiteId)
    ensures IsValid(id) && id !in reg ==> r == Failure(UnknownSite)
    ensures IsValid(id) && id in reg ==> r.Success? && r.value.plan == RemovalPlan(cfg, id, reg[id])
    ensures r.Success? ==> id in reg && (id !in r.value.registry <==> Execute(r.value.plan, fails).completed)
    ensures r.Success? ==> (id !in r.value.registry <==>
      && CanStop(Www, reg[id].wwwRunning, reg[id].scripts) && CanStop(Db, reg[id].dbRunning, reg[id].scripts)
      && !fails(["chmod", "-R", "u+w", SiteDirectory(cfg, id)])
      && !fails(["rm", "-Rf", SiteDirectory(cfg, id)]))
    ensures r.Success? && id in r.value.registry ==>
      && r.value.registry[id].port == reg[id].port && r.value.registry[id].scripts == reg[id].scripts
      && (r.value.registry[id].wwwRunning ==> reg[id].wwwRunning)
      && (r.value.registry[id].dbRunning ==> reg[id].dbRunning)
    ensures r.Success? ==> forall other :: other != id ==>
      (other in r.value.registry <==> other in reg)
      && (other in reg ==> r.value.registry[other] == reg[other])
  {
    if !IsValid(id) then Failure(InvalidSiteId)
    else if id !in reg then Failure(UnknownSite)
    else
      var plan := RemovalPlan(cfg, id, reg[id]);
      var o := Execute(plan, fails);
      RemovalCompletes(cfg, id, reg[id], fails);
      Success(Transition(if o.completed then reg - {id} else reg[id := AfterStops(cfg, id, reg[id], o.performed)], plan))
  }
}
