/** `desima/utils.py`: what the installers of the `desima` package share —
    finding a server's binaries, rendering templates with `string.Template`
    and the Bash prelude, and telling whether an archive has a root
    directory. Its site registry (`list_sites`, `site_directory`,
    `site_port`, `sdo`, `find_unused_port`, `find_site`) is the one of
    `desima.py`, modelled in module SiteRegistry. */
module DesimaUtils {
  import opened Wrappers
  import opened Text
  import Paths
  import opened Effects
  import opened Hosts
  import opened Templates
  import opened SiteRegistry

  // ---------------------------------------------------------------------------
  // Binaries

  /** `bash_prelude()`: the script every generated shell script sources. */
  function BashPrelude(cfg: Config): string {
    Paths.Join(Paths.Join(cfg.base, "bin"), "bashprelude")
  }

  /** Where `get_bin_directory` looks, in order: each entry of `$PATH`, then
      each hint. */
  function SearchDirs(host: Host, hints: seq<string>): seq<string> {
    Split(host.path, ':') + hints
  }

  /** Whether globbing `<dir>/<exe>` finds nothing. */
  predicate FindsNothing(host: Host, dir: string, exe: string) {
    host.glob(Paths.Join(dir, exe)) == []
  }

  /** Index of the first directory where globbing finds something, `|dirs|`
      when there is none. */
  function FirstFound(host: Host, dirs: seq<string>, exe: string): (k: nat)
    ensures k <= |dirs|
    ensures forall j :: 0 <= j < k ==> FindsNothing(host, dirs[j], exe)
    ensures k < |dirs| ==> !FindsNothing(host, dirs[k], exe)
    decreases |dirs|
  {
    if |dirs| == 0 then 0
    else if !FindsNothing(host, dirs[0], exe) then 0
    else 1 + FirstFound(host, dirs[1..], exe)
  }

  /** `chain(*[glob(join(d, exe)) for d in dirs])`: every match, directory by
      directory. It is empty exactly when no directory has a match, and
      otherwise starts with the first match of the first such directory. */
  function Chain(host: Host, dirs: seq<string>, exe: string): (found: seq<string>)
    ensures |found| == 0 <==> FirstFound(host, dirs, exe) == |dirs|
    ensures |found| > 0 ==>
      found[0] == host.glob(Paths.Join(dirs[FirstFound(host, dirs, exe)], exe))[0]
    decreases |dirs|
  {
    if |dirs| == 0 then []
    else host.glob(Paths.Join(dirs[0], exe)) + Chain(host, dirs[1..], exe)
  }

  /** `get_bin_directory(exe, hints)`: the directory of the first file found
      by globbing `<dir>/<exe>` over `$PATH` then the hints, None when nothing
      is found anywhere. */
  function GetBinDirectory(host: Host, exe: string, hints: seq<string>): (r: Option<string>)
    ensures var dirs := SearchDirs(host, hints);
      r.None? <==> forall j :: 0 <= j < |dirs| ==> FindsNothing(host, dirs[j], exe)
    ensures var dirs := SearchDirs(host, hints);
      r.Some? ==> exists k ::
        && 0 <= k < |dirs|
        && (forall j :: 0 <= j < k ==> FindsNothing(host, dirs[j], exe))
        && !FindsNothing(host, dirs[k], exe)
        && r.value == Paths.Dirname(host.glob(Paths.Join(dirs[k], exe))[0])
  {
    var dirs := SearchDirs(host, hints);
    var found := Chain(host, dirs, exe);
    var k := FirstFound(host, dirs, exe);
    assert k < |dirs| ==> !FindsNothing(host, dirs[k], exe);
    if |found| == 0 then None else Some(Paths.Dirname(found[0]))
  }

  // ---------------------------------------------------------------------------
  // Rendering

  /** The token `templates_to_files` adds to every rendering. */
  const PreludeKey: string := "BASHPRELUDE"

  /** `templates_to_files(files, tokens, dir)`: each `(template, destination,
      rights)` rendered in order with `safe_substitute` into
      `<dir>/<destination>` and given `rights`, with `BASHPRELUDE` bound to
      the prelude whatever the caller bound it to, and every other token
      passed on as given. */
  function TemplatesToFiles(cfg: Config, files: seq<FileSpec>, tokens: map<string, string>, dir: string): (plan: Plan)
    ensures |plan| == |files|
    ensures forall i :: 0 <= i < |files| ==>
      && plan[i].Write?
      && plan[i].path == Paths.Join(dir, files[i].destination)
      && plan[i].mode == Some(files[i].mode)
      && plan[i].content.Substituted?
      && plan[i].content.template == TemplatePath(cfg, files[i].template)
    ensures forall i :: 0 <= i < |files| ==>
      && plan[i].content.tokens.Keys == tokens.Keys + {PreludeKey}
      && plan[i].content.tokens[PreludeKey] == BashPrelude(cfg)
      && forall key :: key in tokens && key != PreludeKey ==> plan[i].content.tokens[key] == tokens[key]
  {
    var bound := tokens[PreludeKey := BashPrelude(cfg)];
    seq(|files|, i requires 0 <= i < |files| =>
      Write(Paths.Join(dir, files[i].destination),
            Substituted(TemplatePath(cfg, files[i].template), bound),
            Some(files[i].mode)))
  }

  /** A token name in capitals, as every installer uses, is a
      `string.Template` identifier. */
  lemma TokenNameIsIdentifier(key: string)
    requires |key| > 0 && forall i :: 0 <= i < |key| ==> 'A' <= key[i] <= 'Z' || key[i] == '_'
    ensures IsIdentifier(key)
  {
    assert key[0] != '_' ==> IsAsciiLetter(key[0]);
  }

  lemma PreludeKeyIsIdentifier()
    ensures IsIdentifier(PreludeKey)
  {
    TokenNameIsIdentifier(PreludeKey);
  }

  /** A `$KEY` placeholder, for a key the caller bound, becomes the caller's
      value in every rendered file. */
  lemma TokenRendered(cfg: Config, files: seq<FileSpec>, tokens: map<string, string>, dir: string,
                      i: nat, key: string, rest: string)
    requires i < |files|
    requires IsIdentifier(key) && key in tokens && key != PreludeKey
    requires |rest| == 0 || !IsWordChar(rest[0])
    ensures var c := TemplatesToFiles(cfg, files, tokens, dir)[i].content;
      SafeSubstitute("$" + key + rest, c.tokens) == tokens[key] + SafeSubstitute(rest, c.tokens)
  {
    var c := TemplatesToFiles(cfg, files, tokens, dir)[i].content;
    SafeSubstituteNamed(key, c.tokens, rest);
  }

  /** Files rendered to relative destinations land inside the directory,
      and rendering creates no directory. */
  lemma RenderedInside(cfg: Config, files: seq<FileSpec>, tokens: map<string, string>, dir: string)
    requires IsDirPath(dir)
    requires forall i :: 0 <= i < |files| ==> |files[i].destination| > 0 && files[i].destination[0] != '/'
    ensures ParentsFirst(TemplatesToFiles(cfg, files, tokens, dir), dir)
    ensures Confined(TemplatesToFiles(cfg, files, tokens, dir), dir)
  {
    var plan := TemplatesToFiles(cfg, files, tokens, dir);
    forall i | 0 <= i < |plan|
      ensures IsUnder(plan[i].path, dir)
    {
      RelativeUnder(dir, files[i].destination);
    }
  }

  /** Whatever the caller's tokens, a `$BASHPRELUDE` placeholder in any
      rendered template becomes the prelude's path. */
  lemma PreludeRendered(cfg: Config, files: seq<FileSpec>, tokens: map<string, string>, dir: string,
                        i: nat, rest: string)
    requires i < |files|
    requires |rest| == 0 || !IsWordChar(rest[0])
    ensures var c := TemplatesToFiles(cfg, files, tokens, dir)[i].content;
      SafeSubstitute("$" + PreludeKey + rest, c.tokens) == BashPrelude(cfg) + SafeSubstitute(rest, c.tokens)
  {
    var c := TemplatesToFiles(cfg, files, tokens, dir)[i].content;
    assert PreludeKey in c.tokens && c.tokens[PreludeKey] == BashPrelude(cfg);
    PreludeKeyIsIdentifier();
    SafeSubstituteNamed(PreludeKey, c.tokens, rest);
  }

  // ---------------------------------------------------------------------------
  // Archives

  /** `get_root_directory` of the package. `archive` lists the member names
      of a zip or tar file, None for any other file. The root is the first
      member with a `/` appended when it lacks one; it is kept when every
      other member starts with it. An empty archive or an empty first name
      raises IndexError (Failure). */
  function RootDirectory(archive: Option<seq<string>>): (r: Result<Option<string>, string>)
    ensures archive.None? ==> r == Success(None)
    ensures archive.Some? && (|archive.value| == 0 || |archive.value[0]| == 0) ==> r.Failure?
    ensures archive.Some? && |archive.value| > 0 && |archive.value[0]| > 0 ==>
      var ms := archive.value;
      var root := if EndsWith(ms[0], "/") then ms[0] else ms[0] + "/";
      r.Success?
      && (r.value.Some? <==> forall k :: 1 <= k < |ms| ==> StartsWith(ms[k], root))
      && (r.value.Some? ==> r.value.value == root)
  {
    match archive
    case None => Success(None)
    case Some(ms) =>
      if |ms| == 0 || |ms[0]| == 0 then Failure("IndexError")
      else
        var root := if ms[0][|ms[0]| - 1] != '/' then ms[0] + "/" else ms[0];
        assert forall k :: 1 <= k < |ms| ==> ms[k] == ms[1..][k - 1];
        if AllStartWith(ms[1..], root) then Success(Some(root)) else Success(None)
  }

  /** Every root found ends with `/`, and the first member lies inside it. */
  lemma RootEndsWithSlash(archive: Option<seq<string>>)
    requires RootDirectory(archive).Success? && RootDirectory(archive).value.Some?
    ensures EndsWith(RootDirectory(archive).value.value, "/")
    ensures StartsWith(archive.value[0] + "/", RootDirectory(archive).value.value)
  {
    var ms := archive.value;
    var root := RootDirectory(archive).value.value;
    if EndsWith(ms[0], "/") {
      assert (ms[0] + "/")[..|ms[0]|] == ms[0];
    } else {
      assert root == ms[0] + "/";
    }
  }

  /** A one-member archive always has a root, even a single plain file,
      whose "root" then names that file followed by `/`. */
  lemma OneMemberAlwaysRooted(m: string)
    requires |m| > 0
    ensures RootDirectory(Some([m])).Success? && RootDirectory(Some([m])).value.Some?
  {
    assert [m][1..] == [];
  }

  /** An archive holding only `index.html` is taken as rooted at `index.html/`. */
  lemma SingleFileRoot()
    ensures RootDirectory(Some(["index.html"])) == Success(Some("index.html/"))
  {
    var ms := ["index.html"];
    assert ms[0][|ms[0]| - 1] == 'l';
    assert ms[1..] == [];
    assert ms[0] + "/" == "index.html/";
  }
}
