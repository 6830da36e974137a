/** `desima/apache2.py`: the package's Apache installer. It finds the
    `apache2` binary itself, renders with `string.Template`, and picks the
    configuration template of the installed Apache version. */
module DesimaApache2 {
  import opened Wrappers
  import opened Text
  import opened SiteIds
  import Paths
  import opened Effects
  import opened Hosts
  import opened Templates
  import opened SiteRegistry
  import DesimaUtils
  import SiteLayout

  /** `apache2_bin_directory()`: where `apache2` is found on `$PATH`, then in
      `/usr/sbin`; None when it is found nowhere. */
  function BinDirectory(host: Host): Option<string> {
    DesimaUtils.GetBinDirectory(host, "apache2", ["/usr/sbin"])
  }

  /** `www/<name>`. */
  function WwwSub(dir: string, name: string): string {
    Paths.Join(SiteLayout.WwwDir(dir), name)
  }

  /** The tokens `apache2_install` renders its files with, `daemon` being
      the path of the binary; the ports are turned into text by the
      rendering. */
  function ApacheTokens(cfg: Config, id: string, port: int, dir: string, daemon: string): map<string, string> {
    map[
      "DAEMON" := daemon,
      "SERVERROOT" := SiteLayout.WwwDir(dir),
      "SERVERNAME" := cfg.user + "-" + id,
      "HTTP_PORT" := IntToString(port),
      "HTTPS_PORT" := IntToString(port + 1),
      "USER" := cfg.user,
      "GROUP" := cfg.user,
      "LOCKDIR" := WwwSub(dir, "lock"),
      "LOCKFILE" := "accept.lock",
      "PIDPATH" := Paths.Join(WwwSub(dir, "run"), "apache.pid"),
      "LOGDIR" := WwwSub(dir, "log"),
      "ERRLOGFILE" := "apache2_error.log",
      "ACCLOGFILE" := "apache2_access.log",
      "SITE" := id,
      "CONFPATH" := Paths.Join(dir, "apache2.conf")]
  }

  /** The configuration template of an Apache version. */
  function ConfTemplate(version: string): string {
    "apache2/" + version + ".conf.template"
  }

  /** The configuration, readable and writable, then the three control
      scripts, also executable. */
  function ApacheFiles(version: string): seq<FileSpec> {
    [FileSpec(ConfTemplate(version), "apache2.conf", ReadWrite)] + SiteLayout.ControlScripts("apache2", Www, ReadWriteExec)
  }

  /** The checked `apache2 -v`, then the four rendered files. */
  function Configure(cfg: Config, host: Host, id: string, port: int, dir: string, bin: string): Plan {
    [Run(VersionCommand, true)]
    + DesimaUtils.TemplatesToFiles(cfg, ApacheFiles(ApacheVersion(host.apacheBanner)),
                                   ApacheTokens(cfg, id, port, dir, Paths.Join(bin, "apache2")), dir)
  }

  /** `apache2_install(id, port, dir)`: the five `www` directories, then the
      binary is looked up to fill the tokens. Joining a missing directory
      raises TypeError, after the directories exist; otherwise the version
      is asked for and the files are rendered. */
  function Apache2Install(cfg: Config, host: Host, id: string, port: int, dir: string): (plan: Plan)
    requires IsValid(id)
    ensures |plan| == if BinDirectory(host).None? then 6 else 10
  {
    var mkdirs := MkdirEach(SiteLayout.WwwDirs(dir));
    match BinDirectory(host)
    case None => mkdirs + [Crash("TypeError")]
    case Some(bin) => mkdirs + Configure(cfg, host, id, port, dir, bin)
  }

  /** Without the binary the installation raises right after creating the
      directories, which stay behind. */
  lemma NoBinaryLeavesDirectories(cfg: Config, host: Host, id: string, port: int, dir: string, fails: Command -> bool)
    requires IsValid(id) && BinDirectory(host).None?
    ensures var o := Execute(Apache2Install(cfg, host, id, port, dir), fails);
      && !o.completed
      && o.performed == MkdirEach(SiteLayout.WwwDirs(dir)) + [Crash("TypeError")]
  {
    var plan := Apache2Install(cfg, host, id, port, dir);
    StopsAt(plan, fails, 5);
    assert plan[..6] == plan;
  }

  /** The parts of the installation when the binary is found. */
  lemma ApacheParts(cfg: Config, host: Host, id: string, port: int, dir: string)
    requires IsValid(id) && BinDirectory(host).Some?
    ensures var plan := Apache2Install(cfg, host, id, port, dir);
      var rest := Configure(cfg, host, id, port, dir, BinDirectory(host).value);
      && plan[..5] == MkdirEach(SiteLayout.WwwDirs(dir))
      && plan[5..] == rest
      && rest[0] == Run(VersionCommand, true)
  {
    var mkdirs := MkdirEach(SiteLayout.WwwDirs(dir));
    var rest := Configure(cfg, host, id, port, dir, BinDirectory(host).value);
    assert Apache2Install(cfg, host, id, port, dir) == mkdirs + rest;
  }

  /** What follows the version query is the rendered file table. */
  lemma ConfigureWrites(cfg: Config, host: Host, id: string, port: int, dir: string, bin: string)
    ensures Configure(cfg, host, id, port, dir, bin)[1..]
         == DesimaUtils.TemplatesToFiles(cfg, ApacheFiles(ApacheVersion(host.apacheBanner)),
                                         ApacheTokens(cfg, id, port, dir, Paths.Join(bin, "apache2")), dir)
  {
  }

  /** With the binary found, step `6 + i` renders row `i` of the file table. */
  lemma ApacheWrite(cfg: Config, host: Host, id: string, port: int, dir: string, i: nat)
    requires IsValid(id) && BinDirectory(host).Some? && i < 4
    ensures Apache2Install(cfg, host, id, port, dir)[6 + i]
         == DesimaUtils.TemplatesToFiles(cfg, ApacheFiles(ApacheVersion(host.apacheBanner)),
              ApacheTokens(cfg, id, port, dir, Paths.Join(BinDirectory(host).value, "apache2")), dir)[i]
  {
    var plan := Apache2Install(cfg, host, id, port, dir);
    var rest := Configure(cfg, host, id, port, dir, BinDirectory(host).value);
    ApacheParts(cfg, host, id, port, dir);
    ConfigureWrites(cfg, host, id, port, dir, BinDirectory(host).value);
    assert plan[6 + i] == rest[1 + i] == rest[1..][i];
  }

  /** With the binary found, the version is asked for before any file is
      rendered, and that query is the only step that can stop the
      installation. */
  lemma ApacheOrder(cfg: Config, host: Host, id: string, port: int, dir: string)
    requires IsValid(id) && BinDirectory(host).Some?
    ensures var plan := Apache2Install(cfg, host, id, port, dir);
      && (forall i :: 0 <= i < |plan| ==> (plan[i].Mkdir? <==> i < 5))
      && (forall i :: 0 <= i < |plan| ==> (plan[i].Write? <==> i > 5))
      && (forall i :: 0 <= i < |plan| ==> (MayHalt(plan[i]) <==> i == 5))
  {
    var plan := Apache2Install(cfg, host, id, port, dir);
    var rest := Configure(cfg, host, id, port, dir, BinDirectory(host).value);
    ApacheParts(cfg, host, id, port, dir);
    ConfigureWrites(cfg, host, id, port, dir, BinDirectory(host).value);
    assert forall i :: 0 <= i < 5 ==> plan[i] == plan[..5][i];
    assert forall i :: 5 <= i < 10 ==> plan[i] == rest[i - 5];
    assert forall i :: 1 <= i < 5 ==> rest[i] == rest[1..][i - 1];
  }

  /** With the binary found, the installation runs to the end exactly when
      `apache2 -v` succeeds. */
  lemma ApacheCompletes(cfg: Config, host: Host, id: string, port: int, dir: string, fails: Command -> bool)
    requires IsValid(id) && BinDirectory(host).Some?
    ensures Execute(Apache2Install(cfg, host, id, port, dir), fails).completed <==> !fails(VersionCommand)
  {
    ApacheOrder(cfg, host, id, port, dir);
    ApacheParts(cfg, host, id, port, dir);
    CompletesUnlessStepFails(Apache2Install(cfg, host, id, port, dir), 5, fails);
  }

  /** The 2.2 configuration template is chosen exactly when `apache2 -v`
      names a 2.2 release, the 2.4 one otherwise. */
  lemma ApacheTemplateChoice(banner: string)
    ensures ConfTemplate(ApacheVersion(banner)) == "apache2/2.2.conf.template" <==> Occurs(banner, "Apache/2.2.")
    ensures ConfTemplate(ApacheVersion(banner)) == "apache2/2.4.conf.template" <==> !Occurs(banner, "Apache/2.2.")
  {
    var t := ConfTemplate(ApacheVersion(banner));
    assert "apache2/2.2.conf.template"[10] != "apache2/2.4.conf.template"[10];
    if Occurs(banner, "Apache/2.2.") {
      assert t == "apache2/2.2.conf.template";
    } else {
      assert t == "apache2/2.4.conf.template";
    }
  }

  /** The configuration stays writable but cannot be executed. */
  lemma ApacheConfMode(cfg: Config, host: Host, id: string, port: int, dir: string)
    requires IsValid(id) && BinDirectory(host).Some?
    ensures var w := Apache2Install(cfg, host, id, port, dir)[6];
      w.path == Paths.Join(dir, "apache2.conf") && w.mode == Some(ReadWrite)
  {
    var v := ApacheVersion(host.apacheBanner);
    ApacheRow(cfg, host, id, port, dir, 0);
    ConfRow(v);
  }

  /** The first row of the file table is the writable configuration. */
  lemma ConfRow(v: string)
    ensures ApacheFiles(v)[0] == FileSpec(ConfTemplate(v), "apache2.conf", ReadWrite)
  {
  }

  /** Step `6 + i` writes row `i` of the file table into the site directory,
      with the row's rights. */
  lemma ApacheRow(cfg: Config, host: Host, id: string, port: int, dir: string, i: nat)
    requires IsValid(id) && BinDirectory(host).Some? && i < 4
    ensures var w := Apache2Install(cfg, host, id, port, dir)[6 + i];
      var row := ApacheFiles(ApacheVersion(host.apacheBanner))[i];
      w.Write? && w.path == Paths.Join(dir, row.destination) && w.mode == Some(row.mode)
  {
    ApacheWrite(cfg, host, id, port, dir, i);
  }

  /** The scripts are executable, and each is the one `sdo` runs. */
  lemma ApacheScriptModes(cfg: Config, host: Host, id: string, port: int)
    requires IsValid(id) && BinDirectory(host).Some?
    ensures var plan := Apache2Install(cfg, host, id, port, SiteDirectory(cfg, id));
      && CanExecute(ReadWriteExec)
      && forall k :: 0 <= k < 3 ==>
           plan[7 + k].path == ScriptPath(cfg, id, Www, SiteLayout.Controls[k]) && plan[7 + k].mode == Some(ReadWriteExec)
  {
    ModeBits();
    forall k | 0 <= k < 3
      ensures var w := Apache2Install(cfg, host, id, port, SiteDirectory(cfg, id))[7 + k];
        w.path == ScriptPath(cfg, id, Www, SiteLayout.Controls[k]) && w.mode == Some(ReadWriteExec)
    {
      ApacheScript(cfg, host, id, port, k);
    }
  }

  lemma ApacheScript(cfg: Config, host: Host, id: string, port: int, k: nat)
    requires IsValid(id) && BinDirectory(host).Some? && k < 3
    ensures var w := Apache2Install(cfg, host, id, port, SiteDirectory(cfg, id))[7 + k];
      w.path == ScriptPath(cfg, id, Www, SiteLayout.Controls[k]) && w.mode == Some(ReadWriteExec)
  {
    var files := ApacheFiles(ApacheVersion(host.apacheBanner));
    ApacheWrite(cfg, host, id, port, SiteDirectory(cfg, id), 1 + k);
    assert files[1 + k] == SiteLayout.ControlScripts("apache2", Www, ReadWriteExec)[k];
    SiteLayout.ControlScriptsAreRun(cfg, id, "apache2", Www, ReadWriteExec, k);
  }

  /** HTTP listens on the base port and HTTPS on the next one; the daemon is
      the `apache2` found. */
  lemma ApachePortTokens(cfg: Config, id: string, port: int, dir: string, bin: string)
    ensures var t := ApacheTokens(cfg, id, port, dir, Paths.Join(bin, "apache2"));
      && "HTTP_PORT" in t && "HTTPS_PORT" in t && "DAEMON" in t
      && ParseInt(t["HTTP_PORT"]) == Some(port)
      && ParseInt(t["HTTPS_PORT"]) == Some(port + 1)
      && t["DAEMON"] == Paths.Join(bin, "apache2")
  {
    ApacheTokenValues(cfg, id, port, dir, Paths.Join(bin, "apache2"));
    ParseIntRoundTrip(port);
    ParseIntRoundTrip(port + 1);
  }

  lemma ApacheTokenValues(cfg: Config, id: string, port: int, dir: string, daemon: string)
    ensures var t := ApacheTokens(cfg, id, port, dir, daemon);
      && "HTTP_PORT" in t && "HTTPS_PORT" in t && "DAEMON" in t
      && t["HTTP_PORT"] == IntToString(port) && t["HTTPS_PORT"] == IntToString(port + 1)
      && t["DAEMON"] == daemon
  {
  }

  /** The caller's tokens never bind the prelude's name. */
  lemma ApacheLeavesPrelude(cfg: Config, id: string, port: int, dir: string, daemon: string)
    ensures DesimaUtils.PreludeKey !in ApacheTokens(cfg, id, port, dir, daemon)
  {
  }

  /** In any of the four rendered files, `$KEY` becomes the value
      `apache2_install` bound to `KEY`. */
  lemma ApacheTokenRendered(cfg: Config, host: Host, id: string, port: int, dir: string, i: nat,
                            key: string, rest: string)
    requires IsValid(id) && BinDirectory(host).Some?
    requires i < 4 && IsIdentifier(key)
    requires key in ApacheTokens(cfg, id, port, dir, Paths.Join(BinDirectory(host).value, "apache2"))
    requires |rest| == 0 || !IsWordChar(rest[0])
    ensures var t := ApacheTokens(cfg, id, port, dir, Paths.Join(BinDirectory(host).value, "apache2"));
      var c := Apache2Install(cfg, host, id, port, dir)[6 + i].content;
      SafeSubstitute("$" + key + rest, c.tokens) == t[key] + SafeSubstitute(rest, c.tokens)
  {
    var daemon := Paths.Join(BinDirectory(host).value, "apache2");
    var t := ApacheTokens(cfg, id, port, dir, daemon);
    var files := ApacheFiles(ApacheVersion(host.apacheBanner));
    ApacheWrite(cfg, host, id, port, dir, i);
    ApacheLeavesPrelude(cfg, id, port, dir, daemon);
    DesimaUtils.TokenRendered(cfg, files, t, dir, i, key, rest);
  }

  /** Every destination of the file table is a relative path. */
  lemma ApacheDestinations(version: string)
    ensures forall i :: 0 <= i < |ApacheFiles(version)| ==>
      |ApacheFiles(version)[i].destination| > 0 && ApacheFiles(version)[i].destination[0] != '/'
  {
    var files := ApacheFiles(version);
    forall i | 0 <= i < |files|
      ensures |files[i].destination| > 0 && files[i].destination[0] != '/'
    {
      if i > 0 {
        var c := SiteLayout.Controls[i - 1];
        assert files[i] == SiteLayout.ControlScripts("apache2", Www, ReadWriteExec)[i - 1];
        assert ScriptName(Www, c)[0] == 'w';
      }
    }
  }

  /** The installation creates its directories parents first and writes
      only inside the directory it is given, binary or not. */
  lemma ApacheTree(cfg: Config, host: Host, id: string, port: int, dir: string)
    requires IsValid(id) && IsDirPath(dir)
    ensures ParentsFirst(Apache2Install(cfg, host, id, port, dir), dir)
    ensures Confined(Apache2Install(cfg, host, id, port, dir), dir)
  {
    var mkdirs := MkdirEach(SiteLayout.WwwDirs(dir));
    MkdirFamily(dir, "www", ["log", "lock", "run", "doc"]);
    match BinDirectory(host)
    case None =>
      CommandsOnly([Crash("TypeError")], dir);
      ParentsFirstAppend(mkdirs, [Crash("TypeError")], dir, dir);
      ConfinedAppend(mkdirs, [Crash("TypeError")], dir);
    case Some(bin) =>
      var rest := Configure(cfg, host, id, port, dir, bin);
      ConfigureTree(cfg, host, id, port, dir, bin);
      ParentsFirstAppend(mkdirs, rest, dir, dir);
      ConfinedAppend(mkdirs, rest, dir);
  }

  /** The version query and the rendered files. */
  lemma ConfigureTree(cfg: Config, host: Host, id: string, port: int, dir: string, bin: string)
    requires IsDirPath(dir)
    ensures ParentsFirst(Configure(cfg, host, id, port, dir, bin), dir)
    ensures Confined(Configure(cfg, host, id, port, dir, bin), dir)
  {
    var files := ApacheFiles(ApacheVersion(host.apacheBanner));
    var t := ApacheTokens(cfg, id, port, dir, Paths.Join(bin, "apache2"));
    ApacheDestinations(ApacheVersion(host.apacheBanner));
    DesimaUtils.RenderedInside(cfg, files, t, dir);
    CommandsOnly([Run(VersionCommand, true)], dir);
    ParentsFirstAppend([Run(VersionCommand, true)], DesimaUtils.TemplatesToFiles(cfg, files, t, dir), dir, dir);
    ConfinedAppend([Run(VersionCommand, true)], DesimaUtils.TemplatesToFiles(cfg, files, t, dir), dir);
  }
}
