/** The inside of a site directory, which every installer lays out the same
    way whatever the directory is called: `db` for the database server,
    `www` for the web server, and one `<server>.<control>` script per
    control of each server. */
module SiteLayout {
  import opened Wrappers
  import Paths
  import opened Effects
  import opened SiteRegistry

  function DbDir(dir: string): string {
    Paths.Join(dir, "db")
  }

  /** `db/<name>`. */
  function DbSub(dir: string, name: string): string {
    Paths.Join(DbDir(dir), name)
  }

  /** The package's database directories: `db`, `db/run`, `db/log`,
      `db/data`, in creation order. */
  function PackageDbDirs(dir: string): seq<string> {
    [DbDir(dir)] + Children(DbDir(dir), ["run", "log", "data"])
  }

  /** A file named in one of the package's database subdirectories sits
      directly in that directory, which the installer creates. */
  lemma InDbSub(dir: string, k: nat, file: string)
    requires IsDirPath(dir) && 1 <= k < 4 && IsComponent(file)
    ensures Paths.Dirname(Paths.Join(PackageDbDirs(dir)[k], file)) == PackageDbDirs(dir)[k]
  {
    var names := ["run", "log", "data"];
    ChildOf(dir, "db");
    assert IsComponent(names[k - 1]);
    ChildOf(DbDir(dir), names[k - 1]);
    ChildOf(PackageDbDirs(dir)[k], file);
  }

  function WwwDir(dir: string): string {
    Paths.Join(dir, "www")
  }

  /** `www`, `www/log`, `www/lock`, `www/run`, `www/doc`, in creation order. */
  function WwwDirs(dir: string): seq<string> {
    [WwwDir(dir)] + Children(WwwDir(dir), ["log", "lock", "run", "doc"])
  }

  /** The controls every server has a script for, in file-table order. */
  const Controls: seq<Control> := [Start, Stop, IsRunning]

  /** The last three rows of a package installer's file table: the template
      `<templates>/<control>.template` rendered to `<server>.<control>` for
      each control, all with the same rights. */
  function ControlScripts(templates: string, s: Server, mode: int): (files: seq<FileSpec>)
    ensures |files| == |Controls|
    ensures forall i :: 0 <= i < |Controls| ==>
      ParseScriptName(files[i].destination) == Some((s, Controls[i])) && files[i].mode == mode
  {
    var files := seq(|Controls|, i requires 0 <= i < |Controls| =>
      FileSpec(templates + "/" + ControlName(Controls[i]) + ".template", ScriptName(s, Controls[i]), mode));
    forall i | 0 <= i < |Controls|
      ensures ParseScriptName(files[i].destination) == Some((s, Controls[i]))
    {
      ScriptNameRoundTrip(s, Controls[i]);
    }
    files
  }

  /** Every control script rendered into a site's directory is the one
      `sdo` runs for that server and control. */
  lemma ControlScriptsAreRun(cfg: Config, id: string, templates: string, s: Server, mode: int, i: nat)
    requires i < |Controls|
    ensures Paths.Join(SiteDirectory(cfg, id), ControlScripts(templates, s, mode)[i].destination)
         == ScriptPath(cfg, id, s, Controls[i])
  {
    var files := ControlScripts(templates, s, mode);
    assert ParseScriptName(files[i].destination) == Some((s, Controls[i]));
  }
}
