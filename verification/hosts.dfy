/** What the tools learn from the machine besides the site tree: the search
    path, what `glob` finds, and the banner `apache2 -v` prints. */
module Hosts {
  import opened Text

  /** `path` is `$PATH`; `glob` maps a pattern to the files it matches, in
      the order `glob.glob` returns them; `apacheBanner` is the output of
      `apache2 -v` as `str` renders it. */
  datatype Host = Host(path: string, glob: string -> seq<string>, apacheBanner: string)

  /** The command whose output decides the Apache configuration template. */
  const VersionCommand: seq<string> := ["apache2", "-v"]

  /** `apache_version`: '2.2' when the banner names an Apache 2.2 release,
      '2.4' in every other case. */
  function ApacheVersion(banner: string): (v: string)
    ensures v == "2.2" <==> Occurs(banner, "Apache/2.2.")
    ensures v == "2.4" <==> !Occurs(banner, "Apache/2.2.")
  {
    if Occurs(banner, "Apache/2.2.") then "2.2" else "2.4"
  }

  /** A 2.2 banner selects 2.2. */
  lemma Apache22Banner()
    ensures ApacheVersion("Server version: Apache/2.2.22 (Ubuntu)") == "2.2"
  {
    var a := "Server version: Apache/2.2.22 (Ubuntu)";
    assert a[16..27] == "Apache/2.2." by {
      assert forall k :: 0 <= k < 11 ==> a[16..27][k] == a[16 + k];
    }
    assert OccursAt(a, "Apache/2.2.", 16);
  }

  /** A 2.4 banner selects 2.4. */
  lemma Apache24Banner()
    ensures ApacheVersion("Server version: Apache/2.4.41 (Ubuntu)") == "2.4"
  {
    var b := "Server version: Apache/2.4.41 (Ubuntu)";
    forall i | 0 <= i <= |b|
      ensures !OccursAt(b, "Apache/2.2.", i)
    {
      if 0 <= i && i + 11 <= |b| {
        if i == 16 {
          assert b[i..i + 11][9] == '4';
        } else {
          assert b[i..i + 11][0] == b[i];
          assert b[i..i + 11][6] == b[i + 6];
        }
      }
    }
  }
}
