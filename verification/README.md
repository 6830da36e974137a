# DSM / Desima site manager in Dafny

DSM ("Desima") gives one Unix user private web sites. Each site has its own
Apache and MySQL or PostgreSQL server, rendered from templates under
`BASE = ~/www`. The Python code comes in three generations:

| generation | site directory | site port | rendering |
|---|---|---|---|
| `dsm.py` (oldest) | `site-<id>-<port>` | encoded in the directory name | `***KEY***` tags |
| `desima.py` | `site-<id>` | stored in a `PORT` file | `***KEY***` tags |
| `desima/` package | `site-<id>` | stored in a `PORT` file | `string.Template.safe_substitute`, with MySQL, PostgreSQL and Apache installers |

This project models the part of each generation that decides what exists and
what gets generated:
- site identifiers, directory names and the site listing;
- the `PORT` file and the first-fit port allocator;
- both template engines;
- archive-root detection and application naming;
- each installer's plan: which directories, tokens and files with which modes, and in what order;
- the site lifecycle, as transitions of a registry.

The three generations stay in separate modules, as they are in the code.

Effects are modelled as plans: sequences of `Effects.Action` such as
`Mkdir`, `Write`, `Run`, `Feed`, `Rmdir`, `Rename` and `Crash`.
- `Effects.Execute` runs a plan the way Python runs the installer. Steps take effect in order. The first `check_call` that fails, or the first `Crash` step, stops the plan. Nothing already done is undone. The exceptions the model knows of are `Crash` steps: a failed assertion, a missing binary, a missing control script in removal, an archive with no members. Other raising effects are listed under "Left out".
- A `fails: Command -> bool` oracle stands for exit codes.
- A `Hosts.Host` value stands for the `PATH`, `glob` and `apache2 -v` results.
- An `Option<seq<string>>` stands for an archive's member list (`None` when it is neither zip nor tar).
- A `SiteRegistry.Config` carries `BASE` and `USERNAME`.
- A site's state is `SiteRegistry.Site(port, wwwRunning, dbRunning, scripts)`, where `scripts` holds the control scripts that exist in its directory. The registry maps identifiers to sites.
- Most `assert`s of the source become `requires`. The extension assertion of the application installers becomes a `Crash` step instead, because it fires after the servers are installed. `ValueError` becomes a `Result` failure. An exception raised partway through an installer becomes a `Crash` step.

Modules:

| module | what it holds |
|---|---|
| `Wrappers` | `Option` and `Result` |
| `Text` | ASCII character classes, `str.split`/`join`, decimal `str()`/`int()` |
| `Paths` | POSIX `join`, `dirname` and `splitext` |
| `Effects` | actions, plans and `Execute`; the "parents first" and "confined" layout predicates |
| `Hosts` | `apache_version` |
| `SiteIds` | the identifier pattern |
| `Ports` | `range(10000, 10100, 3)` and first-fit allocation |
| `Templates` | `generate_configuration` and `safe_substitute` |
| `SiteRegistry` | the `site-<id>` directory and `PORT` file shared by `desima.py` and the package; `sdo`, `remove_site` |
| `SiteLayout` | the `db`/`www` subtrees and control-script table shared by the package installers |
| `Desima` | `desima.py` |
| `Dsm` | `dsm.py` |
| `DesimaUtils` | `desima/utils.py` |
| `Applications` | `desima/application.py` |
| `DesimaMysql` | `desima/mysql.py` |
| `DesimaApache2` | `desima/apache2.py` |
| `DesimaPgsql` | `desima/pgsql.py` |
| `DesimaSite` | `desima/site.py` |

The model follows the code in three places where the project's own documentation says otherwise:
- The MySQL installers of `desima.py` and `dsm.py` create only `db`, `db/run` and `db/log`, with no `db/data`.
- The PostgreSQL installer creates no database user, and connects to nothing after `initdb`.
- `get_root_directory` in `desima/utils.py` appends `/` to the first member instead of rejecting it.

## Model

| member | source | states |
|---|---|---|
| Text.Split | desima.py:54 | `str.split` on one separator yields at least one piece and no piece contains the separator |
| Text.JoinSplit | desima.py:54 | joining the pieces of a split with the separator gives the string back |
| Text.SplitJoin | desima.py:54 | splitting a join of separator-free pieces gives the pieces back |
| Text.NatToString | desima.py:324 | `str` of a natural number is a non-empty run of digits |
| Text.NatToStringValue | desima.py:64 | the digits `str(n)` writes read back as `n` |
| Text.ParseIntRoundTrip | desima.py:64 | `int(str(i)) == i` for every integer, negative ones included |
| Text.ParseInt | desima.py:64 | a non-empty run of ASCII digits reads as its decimal value |
| Text.ParseIntTrailingSpace | desima.py:64 | a trailing whitespace character, such as a final newline in `PORT`, does not change what `int` reads |
| Text.StripTrailingSpace | desima.py:64 | `strip` removes a trailing whitespace character |
| Text.DigitsValueBound | dsm.py:20 | a run of k digits reads as a number below 10^k |
| Text.NatToStringLength | dsm.py:20 | `str(n)` has at most k digits exactly when `n < 10^k` |
| Text.AllStartWith | desima.py:269-271 | the loop over members succeeds exactly when every member starts with the prefix |
| Text.Words | desima/application.py:20 | the words `capwords` splits on are non-empty and contain no whitespace, the ten ASCII whitespace characters `str.split()` uses included |
| Text.CapWords | desima/application.py:20 | `capwords` gives single-spaced text whose words are the input's words, each capitalized, and adds no character other than spaces and letters |
| Text.WordsOfJoin | desima/application.py:20 | splitting a single-space join of proper words gives the words back |
| Text.CapitalizeWord | desima/application.py:20 | capitalizing a word keeps its length, adds no whitespace and adds no non-letter character |
| Paths.JoinInjective | desima.py:186-192 | joining one directory with two different relative names gives two different paths |
| Paths.DirnameOfJoin | desima/utils.py:44 | `dirname(join(d, name))` is `d` for a slash-free name |
| Paths.ExtensionOfSuffix | desima/application.py:37 | `splitext` of `stem.ext` yields `.ext` |
| Effects.ModeBits | desima/apache2.py:69-70 | `S_IREAD` alone is read-only; with `S_IEXEC` it is also executable; `S_IRUSR` with `S_IWUSR` is read-write but not executable; adding `S_IXUSR` gives all three |
| Effects.MkdirEachCreates | desima/mysql.py:53-54 | one `mkdir` per directory cannot halt, creates exactly the given directories and writes no file |
| Effects.Execute | desima.py:197-200 | a run performs a prefix of the plan; it completes exactly when no step halts; otherwise it ends at the first halting step, and every step before it does not halt |
| Effects.ExecutePerformsPrefix | desima.py:197-200 | every step before the first halting one is performed |
| Effects.StopsAt | desima.py:197-200 | a step that halts ends the run right after itself, and the run is not complete |
| Effects.HeadPerformed | desima.py:318-324 | a leading part that cannot halt is always performed, whatever fails later |
| Effects.NeverHaltsCompletes | desima.py:135-149 | a plan with no checked command and no crash always runs to completion |
| Effects.CompletesUnlessStepFails | desima.py:194-200 | a plan whose only checked command is step k completes exactly when that command succeeds |
| Effects.ChildrenInside | desima/mysql.py:46-49 | each child path lies directly in the directory, and different names give different paths |
| Effects.MkdirFamily | desima/mysql.py:46-54 | creating a directory and then its children creates each parent first and stays inside the root |
| Hosts.ApacheVersion | desima/apache2.py:12-19 | the version is 2.2 exactly when the banner contains `Apache/2.2.`, and 2.4 otherwise |
| Hosts.Apache22Banner | desima/apache2.py:12-19 | an Ubuntu Apache 2.2 banner selects 2.2 |
| Hosts.Apache24Banner | desima/apache2.py:12-19 | an Apache 2.4 banner selects 2.4 |
| SiteIds.TrailingNewlineAccepted | desima.py:24 | the pattern as compiled accepts `a` followed by a newline, which the corrected predicate rejects |
| SiteIds.IsValid | desima.py:48-50 | a valid identifier is 1 to 24 word characters and starts with neither a digit nor `_` |
| SiteIds.AsWrittenDiffersOnlyByNewline | desima.py:48-50 | the as-written match accepts exactly the strings that are a valid identifier, optionally followed by one newline |
| SiteIds.ValidShape | desima.py:24 | a valid identifier has 1 to 24 word characters and contains no `-`, `/`, newline or `.` |
| SiteIds.CheckSiteId | desima/utils.py:27-29 | the check answers yes exactly for valid identifiers |
| Ports.RangeLength | desima.py:90 | `range(lo, hi, step)` has the number of elements Python gives it |
| Ports.RangeElements | desima.py:90 | element i of `range(lo, hi, step)` is `lo + step * i` |
| Ports.CandidatesAre | desima.py:18 | the candidate ports are the 34 values 10000, 10003, ..., 10099 |
| Ports.FirstNotIn | desima.py:92 | `next(...)` over candidates gives the first one not used, with every earlier one used, or nothing when all are used |
| Ports.FindUnusedPort | desima/utils.py:80-87 | the port found is an unused candidate, every smaller candidate is used, and there is none exactly when all 34 are used |
| Ports.ThirdSiteGets10006 | desima.py:85-92 | with 10000 and 10003 taken, the next site gets 10006 |
| Ports.BlocksDisjoint | desima.py:18 | two different candidate ports have disjoint HTTP/HTTPS/database port blocks |
| Ports.AllocatedBlockIsFree | desima.py:85-92 | the block of a freshly allocated port overlaps no existing site's block |
| Ports.BlockBounds | desima.py:18 | every port of every block lies between 10000 and 10101, and the last candidate's database port is 10101 |
| Templates.ReplaceAbsent | desima.py:102 | `str.replace` with a pattern that does not occur changes nothing |
| Templates.ReplaceIsJoinOfSplit | desima.py:102 | `s.replace(pat, rep)` equals `rep.join(s.split(pat))`, the independent definition |
| Templates.GenerateInOrder | desima.py:98-104 | rendering with `a + b` is rendering with `a`, then with `b` |
| Templates.GenerateConfiguration | desima.py:98-104 | with one `(key, value)` pair, every `***key***` is replaced by the value: the pieces between the markers, joined by the value |
| Templates.GenerateSkipsAbsentTag | desima.py:101-102 | a pair whose marker is absent has no effect |
| Templates.GenerateWithoutTags | desima.py:98-104 | a template without `*` comes out unchanged, whatever the values |
| Templates.Lookup | desima.py:101 | the value bound to a key in a token list, if any |
| Templates.LookupFirst | desima.py:101 | when a key occurs several times, its first binding is the one found |
| Templates.RenderSingleTag | desima.py:98-104 | a lone `***KEY***` renders to KEY's value when no earlier tag's marker occurs inside it |
| Templates.IdentLength | desima/utils.py:100 | a placeholder name is the longest run of word characters |
| Templates.FirstPiece | desima/utils.py:100 | each step of `safe_substitute` consumes at least one character |
| Templates.SafeSubstitute | desima/utils.py:100 | a template without `$` comes out unchanged, whatever the bindings |
| Templates.UnboundPieceVerbatim | desima/utils.py:100 | with no bindings, every piece except `$$` is copied verbatim |
| Templates.SafeSubstituteNothingBound | desima/utils.py:100 | with no bindings, a template without `$$` comes out unchanged: missing keys never fail |
| Templates.SafeSubstituteBraced | desima/utils.py:100 | `${KEY}` becomes KEY's value when bound and stays verbatim when not |
| Templates.SafeSubstituteNamed | desima/utils.py:100 | `$KEY` followed by a non-word character becomes KEY's value when bound and stays verbatim when not |
| SiteRegistry.SplitSiteDirName | desima.py:54 | `site-<word>` splits on `-` into `site` and the word |
| SiteRegistry.SiteIdOf | desima.py:54 | the identifier read from a matching name is a non-empty word, and rebuilding the directory name gives the entry back |
| SiteRegistry.DirNameRoundTrip | desima.py:52-60 | the name `site_directory` builds matches `SITE_FORMAT`, and `list_sites` reads the identifier back |
| SiteRegistry.ValidIdRoundTrip | desima.py:23-24 | the same round trip for every valid identifier |
| SiteRegistry.ListSites | desima.py:52-56 | at most one identifier per entry, each a non-empty word, possibly followed by the one newline `$` lets through |
| SiteRegistry.ListSitesAppend | desima.py:52-56 | listing is done entry by entry, in listing order |
| SiteRegistry.ListedIff | desima.py:52-56 | only words, with or without a final newline, are listed; such an identifier is listed exactly when `site-<identifier>` is a directory of the listing |
| SiteRegistry.FindSite | desima.py:94-96 | a word, with or without a final newline, is found exactly when its site directory exists; anything else is never found |
| SiteRegistry.NewlineDirectoryListed | desima.py:52-56 | a directory `site-<word>` followed by a newline is listed as the word plus newline, and found, though that identifier is not valid |
| SiteRegistry.ListAfterMkdir | desima.py:319-320 | after the site directory is created, the listing is the old one plus the new identifier |
| SiteRegistry.ListAfterRemoval | desima.py:348-352 | after the site directory is deleted, the listing is the old one minus that identifier |
| SiteRegistry.SitePort | desima.py:62-64 | the port read from a file of at most 1000 bytes is the `int` of its content |
| SiteRegistry.PortFileRoundTrip | desima.py:322-324 | what `install_site` writes to `PORT` reads back as the port |
| SiteRegistry.CandidatePortFileLength | desima.py:64 | a candidate port's `PORT` file is 5 bytes, well within `read(1000)` |
| SiteRegistry.CandidatePortRoundTrip | desima/site.py:32-33 | every port the allocator hands out reads back from its `PORT` file |
| SiteRegistry.ParseScriptName | desima.py:72 | a recognised `<server>.<action>` name is the one built from its parts |
| SiteRegistry.ScriptNameRoundTrip | desima.py:72 | a script name parses back to its server and action |
| SiteRegistry.ScriptNamesDistinct | desima.py:69-72 | the six server/action pairs have six different script names |
| SiteRegistry.ScriptPathsDistinct | desima.py:72 | the six scripts of a site are six different paths |
| SiteRegistry.ScriptInSiteDirectory | desima.py:72 | every control script lies directly in the site directory |
| SiteRegistry.SiteDirectoryShape | desima.py:58-60 | the site directory is `BASE/site-<id>`, directly under `BASE` |
| SiteRegistry.SiteDirectory | desima.py:58-60 | the site directory ends with `site-<id>`, and is `BASE/site-<id>` for a well-formed `BASE` |
| SiteRegistry.MatchesSiteFormat | desima.py:23 | a name matches exactly when it is `site-` and a non-empty word, with or without one final newline |
| SiteRegistry.Sdo | desima.py:66-72 | `sdo` runs, unchecked, the site's `<server>.<action>` script and no other of its six scripts, and answers true exactly when the exit code is 0 |
| SiteRegistry.UsedPorts | desima.py:89 | the used ports are exactly the ports of the registered sites |
| SiteRegistry.FindUnusedPort | desima.py:85-92 | over the registry: an unused candidate with every smaller candidate used, or nothing exactly when all are used |
| SiteRegistry.StopIfRunning | desima.py:341-345 | the server's `isrunning` script is run, and its stop script only if it runs; a missing `isrunning` script raises, and nothing here is checked |
| SiteRegistry.StopCalledIff | desima.py:341-345 | the stop script of a server is issued exactly for that server, only when it runs and both its `isrunning` and `stop` scripts exist |
| SiteRegistry.RemovalPlan | desima.py:340-352 | removal stops each running server, then runs `chmod -R u+w` and `rm -Rf`; before those two checked steps it can halt only on a missing script |
| SiteRegistry.StopCalled | desima.py:341-345 | the removal plan stops a server exactly when that server runs and its scripts exist |
| SiteRegistry.RemovalCompletes | desima.py:340-352 | the removal plan completes exactly when each server's `isrunning` script exists, its stop script exists if it runs, and `chmod` and `rm` succeed |
| SiteRegistry.RemoveSite | desima.py:332-352 | invalid and unknown identifiers fail before any effect; otherwise the site leaves the registry exactly when the removal plan completes, which needs the `isrunning` scripts and a successful `chmod` and `rm`; every other site is unchanged |
| SiteLayout.InDbSub | desima/mysql.py:46-49 | a file named in `db/run`, `db/log` or `db/data` sits directly in that created directory |
| SiteLayout.ControlScripts | desima/mysql.py:76-78 | the three script rows render to `<server>.start`, `.stop` and `.isrunning`, with the given rights |
| SiteLayout.ControlScriptsAreRun | desima/utils.py:60-67 | each rendered script is the one `sdo` runs for that server and action |
| DesimaUtils.FirstFound | desima/utils.py:37-39 | the first search directory whose glob finds the executable; every earlier one finds nothing |
| DesimaUtils.Chain | desima/utils.py:38-39 | the chained glob results are empty exactly when no directory finds anything, and start with the first directory's first match |
| DesimaUtils.GetBinDirectory | desima/utils.py:35-44 | PATH entries then hints are searched in order; the result is the dirname of the first match, and there is none exactly when nothing matches |
| DesimaUtils.TemplatesToFiles | desima/utils.py:104-113 | each row is rendered, in order, to `join(dir, destination)` with its rights; `BASHPRELUDE` is bound to the prelude whatever the caller gave; other tokens pass through unchanged |
| DesimaUtils.TokenRendered | desima/utils.py:97-113 | in every rendered file, `$KEY` for a caller's token becomes the caller's value |
| DesimaUtils.PreludeRendered | desima/utils.py:104-106 | in every rendered file, `$BASHPRELUDE` becomes the prelude path |
| DesimaUtils.RenderedInside | desima/utils.py:107-113 | rendering relative destinations creates no directory and writes only inside the directory |
| DesimaUtils.RootDirectory | desima/utils.py:115-132 | the root is the first member with `/` appended if missing; it is found exactly when every later member starts with it; an empty list or empty first name raises |
| DesimaUtils.RootEndsWithSlash | desima/utils.py:124-126 | a detected root ends with `/` and is a prefix of the first member plus `/` |
| DesimaUtils.OneMemberAlwaysRooted | desima/utils.py:124-132 | an archive with one member always counts as rooted |
| DesimaUtils.SingleFileRoot | desima/utils.py:124-132 | a lone `index.html` is taken for the root `index.html/` |
| Applications.SplitArchiveName | desima/utils.py:25 | a name splits into a stem without newline and one of the three suffixes, and the parts rebuild the name |
| Applications.MatchApplication | desima/application.py:15-17 | the `APPLICATION_FORMAT` match gives a stem and a suffix that rebuild the name, allowing the trailing newline `$` tolerates |
| Applications.SplitBuiltName | desima/utils.py:25 | `stem.suffix` splits back into the stem and the suffix |
| Applications.MatchBuiltName | desima/application.py:15 | the pattern recovers the stem and suffix, with or without a trailing newline |
| Applications.HumanName | desima/application.py:19-20 | the human name has no `-` or `_` and is single-spaced; its words are the stem's words, with `-`, `_` and ASCII whitespace read as separators, each capitalized |
| Applications.ExtractApplication | desima/application.py:12-22 | None exactly when the pattern fails; otherwise the human name of the stem and `join(base_dir, filename)` |
| Applications.ListApplications | desima/application.py:24-31 | exactly the regular files the pattern accepts are listed, with their names and paths |
| Applications.ExtractorFor | desima/application.py:41-47 | an extractor exists exactly for `.gz`, `.bz2` and `.zip`; tar handles all but `.zip` |
| Applications.ArchiveNameSelectsExtractor | desima/application.py:37-47 | `.tar.gz` selects `tar xzf --directory`, `.tar.bz2` selects `tar xjf --directory`, `.zip` selects `unzip -q -d` |
| Applications.TarExtension | desima/application.py:37 | `splitext` of a `.tar.gz` or `.tar.bz2` name gives `.gz` or `.bz2` |
| Applications.ExtensionOfArchive | desima/application.py:37 | `splitext` of an archive name gives its last suffix |
| Applications.HiddenZipListed | desima/application.py:15-22 | a file named `.zip` is listed, with an empty human name |
| Applications.HiddenZipMatches | desima/application.py:15-17 | the pattern accepts `.zip` with an empty stem |
| Applications.EmptyHumanName | desima/application.py:19-20 | an empty stem gives an empty human name |
| Applications.HiddenZipNotInstallable | desima/application.py:37 | `splitext` sees no extension in `.zip`, so `application_install` cannot accept what the listing offers |
| Applications.ExtractPlan | desima/application.py:47-69 | the extractor runs checked into `www/doc` for an unrooted archive; into `www` for a rooted one, followed by `rmdir doc` and the rename of the root to `doc` |
| Applications.ApplicationInstall | desima/application.py:33-69 | a file whose extension has no extractor raises `AssertionError`; an archive with no first member raises `IndexError`; otherwise the extraction plan for the root found |
| Desima.MysqlPortTagsRendered | desima.py:167-177 | in `install_mysql`'s token list `***PORT***` renders to the database port `port + 2` and `***ID***` to the port, both reading back as numbers |
| Desima.HttpTagNotInHttpsTag | desima.py:228-229 | the `HTTP_PORT` marker does not occur inside the `HTTPS_PORT` marker |
| Desima.ApachePortTagsRendered | desima.py:225-237 | `***HTTP_PORT***` renders to the port and `***HTTPS_PORT***` to the next port |
| Desima.DefaultUserScriptLines | desima.py:128-133 | the SQL script consists of the three statements, one per line, ending with a newline |
| Desima.CreateDefaultUser | desima.py:126-149 | start db first; for an ASCII identifier the script is fed to `mysql`, db is stopped last and no step can stop the sequence; for a non-ASCII one `mysql` is launched and then `bytes(script, 'ASCII')` raises, in place of the stop |
| Desima.DefaultUserStopIssued | desima.py:135-149 | the client's outcome is never checked: every step runs, the start script always runs, and the stop script runs (and the sequence completes) exactly when the identifier is ASCII |
| Desima.DefaultUserScriptAscii | desima.py:128-133 | the script encodes as ASCII exactly when the identifier does |
| Desima.ScriptNameIsNotConf | desima.py:179-184 | no control script overwrites the configuration file |
| Desima.FileTableModes | desima.py:179-184 | every file is readable and not writable; exactly the scripts are executable |
| Desima.ServerScriptsRendered | desima.py:186-192 | each control script is written where `sdo` runs it, executable |
| Desima.ServerFilesRendered | desima.py:179-192 | every rendered file carries the tag list, is read-only, and is executable exactly when it is not the configuration |
| Desima.TemplateRowsWritten | desima.py:106-115 | each row's destination inside the directory is written, and different destinations are different files |
| Desima.MysqlPlan | desima.py:156-202 | three `db` directories, the four files, the checked `mysql_install_db --defaults-file`, then the default user |
| Desima.MysqlOrder | desima.py:186-202 | every file is written before `mysql_install_db`; the plan can stop only there or, for a non-ASCII identifier, at the encoding error that ends it; for an ASCII identifier it ends by stopping db |
| Desima.MysqlCompletesUnlessInstallDbFails | desima.py:194-202 | the MySQL installation completes exactly when `mysql_install_db` succeeds and the identifier is ASCII |
| Desima.ApachePlan | desima.py:210-254 | five `www` directories, the checked `apache2 -v`, then the four files |
| Desima.ApacheOrder | desima.py:239-254 | the version query comes before every file and is the only step that can fail |
| Desima.ApacheTemplateChoice | desima.py:239 | `apache2.2.conf.template` exactly for a 2.2 banner, `apache2.4.conf.template` otherwise |
| Desima.RootDirectory | desima.py:256-273 | rooted exactly when the first member ends with `/` and every member starts with it; an empty list or empty first name raises |
| Desima.RootDirectoryRefinedByPackage | desima/utils.py:124-132 | both variants raise on the same archives, and every root `desima.py` finds, the package finds too |
| Desima.RootDirectoriesDiffer | desima.py:265-273 | on a lone `index.html` the two variants disagree |
| Desima.InstallApplication | desima.py:275-308 | a file whose extension has no extractor raises `AssertionError`; an archive with no first member raises `IndexError`; otherwise the extraction plan for the root found |
| Desima.SiteHeadNeverHalts | desima.py:319-324 | creating the site directory and writing `PORT` cannot stop the installation |
| Desima.ApplicationPlan | desima.py:329-330 | the application step is empty exactly when no archive is given |
| Desima.InstallPlanHead | desima.py:318-324 | the installation starts by creating the site directory and its `PORT` file |
| Desima.InstallPlanServers | desima.py:326-327 | MySQL, then Apache, follow the site head |
| Desima.InstallPlanApplication | desima.py:329-330 | the application step comes last |
| Desima.Register | desima.py:312-316 | invalid identifiers, then existing ones, fail; otherwise the site joins stopped, with its port and the scripts written, and every other site is unchanged |
| Desima.InstallSite | desima.py:310-330 | errors before any effect; success exactly for a valid new identifier, which joins the registry stopped, knowing the control scripts the run actually wrote; the plan starts by creating the site directory |
| Desima.InstallPlan | desima.py:310-330 | the installation has 23 steps plus the application step, and starts by creating the site directory |
| Desima.InstallSteps | desima.py:310-330 | among the 23 steps only `mysql_install_db` (step 9), `apache2 -v` (step 18) and, for a non-ASCII identifier, the encoding error (step 12) can halt; `PORT` is written at step 1, the db scripts at 6–8 and the www scripts at 20–22 |
| Desima.InstallPerformed | desima.py:310-330 | a failing `mysql_install_db` stops after 10 steps, a non-ASCII identifier after 13, a failing `apache2 -v` after 19; otherwise all 23 steps are performed |
| Desima.InstallScripts | desima.py:310-330 | after installation all six control scripts exist exactly when `mysql_install_db` and `apache2 -v` succeed and the identifier is ASCII; otherwise only the three db scripts |
| Desima.ScriptsOfPrefix | desima.py:186-192 | a run that passes the db scripts but stops before the www scripts leaves the db scripts only; a full run leaves all six |
| Desima.RemoveStopped | desima.py:332-352 | removing a stopped site removes it exactly when both `isrunning` scripts exist and `chmod` and `rm` succeed, giving the registry back |
| Desima.PortWritten | desima.py:322-324 | the `PORT` write reads back as the port |
| Desima.InstallPortReadBack | desima.py:62-64 | after installation `site_port` gives back the port installed with |
| Desima.InstallLeavesDirectory | desima.py:318-330 | whatever fails later, creating the site directory and writing `PORT` are always performed; nothing is rolled back |
| Desima.RemoveUndoesInstall | desima.py:332-352 | removing a just-installed site gives the registry back exactly when `mysql_install_db`, `apache2 -v`, `chmod` and `rm` all succeed; otherwise the registry stays as installation left it |
| Desima.RegisterFreePort | desima.py:18 | registering a free candidate port keeps ports distinct and blocks disjoint |
| Desima.InstallWithUnusedPort | desima.py:85-92 | installing with the allocated port keeps every site's port block disjoint from the others |
| Desima.WritesInside | desima.py:186-192 | rendering creates no directory and writes only inside the site directory |
| Desima.DbDirsTree | desima.py:159-162 | `db` is created before `db/run` and `db/log`, all inside the site |
| Desima.MysqlTree | desima.py:156-202 | the MySQL installation creates each directory after its parent and touches nothing outside the site |
| Desima.WwwDirsTree | desima.py:213-222 | `www` is created before its four subdirectories, all inside the site |
| Desima.ApacheTree | desima.py:210-254 | the Apache installation creates each directory after its parent and touches nothing outside the site |
| Desima.ApplicationCreatesNothing | desima.py:292-308 | the application step creates no directory and writes no file itself |
| Desima.ExtractCreatesNothing | desima/application.py:52-69 | extraction is only commands, `rmdir` and a rename |
| Desima.HeadTree | desima.py:318-324 | the site directory lies directly under `BASE`, and the site head stays inside `BASE` |
| Desima.InstallTree | desima.py:310-330 | the whole installation creates each directory after its parent and stays inside `BASE` |
| Dsm.ParseSiteDirName | dsm.py:28 | a matching name gives a non-empty word identifier and a non-negative port |
| Dsm.MatchingNameShape | dsm.py:20 | a matching name is `site-`, the identifier, `-`, the port digits and possibly one final newline; the port is the value of those digits |
| Dsm.SiteFormatIff | dsm.py:20 | a name matches exactly when it is `site-`, a non-empty word, `-` and 4 or 5 digits, with or without one final newline |
| Dsm.SiteFormatComplete | dsm.py:20 | every `site-<word>-<4 or 5 digits>` name matches, with or without a final newline |
| Dsm.PortFieldValue | dsm.py:28 | `int` of the port field is the value of its digits, below 100000, the final newline ignored |
| Dsm.FourOrFiveDigits | dsm.py:20 | `str(port)` has 4 or 5 digits exactly when 1000 <= port < 100000 |
| Dsm.SplitSiteDirName | dsm.py:28 | `site-<id>-<port>` splits into `site`, the identifier and the port digits |
| Dsm.SiteDirNameRoundTrip | dsm.py:26-34 | the name `site_directory` builds matches, and `list_sites` reads back the identifier and port |
| Dsm.ShortPortNotListed | dsm.py:20 | a site with a port below 1000 would never be listed |
| Dsm.ZeroPaddedPort | dsm.py:28 | a zero-padded port is listed under a number whose directory name is a different one |
| Dsm.ListSites | dsm.py:26-30 | at most one site per entry, each with a non-empty word identifier |
| Dsm.NewlineNameListed | dsm.py:26-30 | a directory `site-<id>-<port>` followed by a newline is listed as `(id, port)` |
| Dsm.SiteDirectory | dsm.py:32-34 | the site directory ends with `site-<id>-<port>`, and is `BASE/site-<id>-<port>` for a well-formed `BASE` |
| Dsm.Sdo | dsm.py:36-45 | `sdo` runs exactly one command, the script alone with no arguments, through `call`: its exit status never stops the plan |
| Dsm.SdoRunsOwnScript | dsm.py:36-45 | the script `sdo` runs is `<server>.<action>` in the site directory: it is the path of a given server/action pair exactly when that pair is the one asked for |
| Dsm.ListSitesAppend | dsm.py:26-30 | listing is done entry by entry, in order |
| Dsm.ListAfterMkdir | dsm.py:253-254 | after the site directory is created, the listing gains exactly `(id, port)` at its end |
| Dsm.IgnoredEntry | dsm.py:29-30 | a file, or a directory whose name does not match, changes nothing |
| Dsm.WithId | dsm.py:69-70 | exactly the listed sites with the identifier are kept |
| Dsm.FindSite | dsm.py:67-75 | a site is found exactly when one listed site has the identifier, and it is that one |
| Dsm.FoundIsUnique | dsm.py:72-73 | a found site is the only listed site with that identifier |
| Dsm.AbsentNotFound | dsm.py:72-75 | an identifier no listed site has is not found |
| Dsm.DuplicateNotFound | dsm.py:72-75 | an identifier two listed sites have is not found |
| Dsm.UsedPorts | dsm.py:62 | the used ports are exactly the listed ports |
| Dsm.FindUnusedPort | dsm.py:58-65 | an unused candidate with every smaller candidate used, or nothing exactly when all are used |
| Dsm.AllocatedPortListed | dsm.py:58-65 | a site created with an allocated port is listed with that port |
| Dsm.MysqlPlan | dsm.py:132-187 | the MySQL installation of `dsm.py` has eleven steps; `Dsm.MysqlParts` states what each one is |
| Dsm.MysqlOrder | dsm.py:143-187 | the configuration is rendered, then `mysql_install_db` runs, then the three scripts are rendered, then the user is created; only `mysql_install_db` and, for a non-ASCII identifier, the encoding error that ends the plan can stop it |
| Dsm.MysqlWrites | dsm.py:145-185 | files are written only at the configuration step and the three script steps |
| Dsm.MysqlHalts | dsm.py:159-187 | only `mysql_install_db` and, for a non-ASCII identifier, the encoding error can stop the plan; it ends by stopping db for an ASCII identifier and with the encoding error otherwise |
| Dsm.MysqlParts | dsm.py:132-187 | three directories, the configuration, `mysql_install_db`, three executable scripts, then the default user |
| Dsm.CreateDefaultUser | dsm.py:103-126 | three steps, creating no directory and writing no file: start db first; for an ASCII identifier none can halt and db is stopped last, otherwise `bytes(script, 'ASCII')` raises in place of the stop |
| Dsm.DefaultUserStopIssued | dsm.py:112-126 | the stop script runs, and the sequence completes, exactly when the identifier is ASCII |
| Dsm.ScriptFilesAsInDesima | dsm.py:173-177 | the script rows are those of `desima.py` |
| Dsm.MysqlConfPortsRendered | dsm.py:145-154 | the configuration's `***PORT***` renders to `port + 2` and `***ID***` to the port |
| Dsm.ApachePlan | dsm.py:194-240 | the Apache installation of `dsm.py` has ten steps; `Dsm.ApacheAsInDesima` states they are those of `desima.py` |
| Dsm.ApacheAsInDesima | dsm.py:194-240 | for the same site directory it is the Apache installation of `desima.py` |
| Dsm.InstallSite | dsm.py:242-257 | an invalid identifier, then a found site, fail before any effect; otherwise 22 steps starting with the site directory |
| Dsm.InstalledSiteFound | dsm.py:242-257 | a new site installed with a 4–5 digit port is found afterwards |
| Dsm.DuplicatesAllowReinstall | dsm.py:247-250 | an identifier listed twice counts as absent, so it can be installed a third time |
| Dsm.RemoveSite | dsm.py:259-270 | removal checks the identifier and that the site is found, and otherwise changes nothing |
| DesimaMysql.CreateUser | desima/mysql.py:12-33 | three steps (start, feed, stop), none of which can stop the sequence |
| DesimaMysql.CreateUserStopAlwaysIssued | desima/mysql.py:19-33 | the client's outcome is not checked, so the stop script always runs |
| DesimaMysql.UserScriptNamesSite | desima/mysql.py:16-17 | the create script renders `$DATABASE`, `$USER` and `$PASSWORD` as the site identifier |
| DesimaMysql.UserScriptWithoutPrelude | desima/mysql.py:17 | the create script gets no `BASHPRELUDE`: that placeholder stays verbatim |
| DesimaMysql.MysqlInstall | desima/mysql.py:42-91 | the MySQL installation has twelve steps; `DesimaMysql.MysqlParts` states what each one is |
| DesimaMysql.MysqlParts | desima/mysql.py:52-91 | four `db` directories, the four rendered files, the checked `mysql_install_db --defaults-file`, then the user creation |
| DesimaMysql.MysqlOrder | desima/mysql.py:81-91 | directories first, then all files, then `mysql_install_db`, which alone can fail |
| DesimaMysql.MysqlCompletes | desima/mysql.py:86-91 | the installation completes exactly when `mysql_install_db` succeeds |
| DesimaMysql.MysqlModes | desima/mysql.py:74-79 | `mysql.conf` is read-only and not executable; the three scripts are executable and are those `sdo` runs |
| DesimaMysql.MysqlPortTokens | desima/mysql.py:67-71 | `PORT` reads back as `port + 2`, `ID` as the port, and `SITE` is the identifier |
| DesimaMysql.MysqlTokenValues | desima/mysql.py:57-72 | `PORT` is `str(port + 2)`, `ID` is `str(port)`, `SITE` is the identifier |
| DesimaMysql.MysqlRuntimePaths | desima/mysql.py:61-66 | the log, socket and pid files lie directly in created `db` subdirectories, and the data directory is one of them |
| DesimaMysql.MysqlPathTokens | desima/mysql.py:46-66 | the log path is under `db/log`, the socket and pid under `db/run`, the data directory is `db/data` |
| DesimaMysql.MysqlLeavesPrelude | desima/mysql.py:57-72 | the installer binds no `BASHPRELUDE` itself |
| DesimaMysql.MysqlTokenRendered | desima/mysql.py:81 | in each rendered file every installer token's placeholder becomes its value |
| DesimaMysql.MysqlTree | desima/mysql.py:42-91 | each directory is created after its parent and nothing outside the site directory is touched |
| DesimaMysql.MysqlDestinations | desima/mysql.py:74-79 | every destination is a relative path |
| DesimaApache2.Apache2Install | desima/apache2.py:33-79 | ten steps when the binary is found; six when it is not, the last being the crash |
| DesimaApache2.NoBinaryLeavesDirectories | desima/apache2.py:45-50 | without the binary, joining `None` raises after the five directories exist, and they stay |
| DesimaApache2.ApacheParts | desima/apache2.py:45-79 | five directories, the checked `apache2 -v`, then the rendered files |
| DesimaApache2.ApacheOrder | desima/apache2.py:45-79 | directories first, then the version query (the only step that can fail), then the files |
| DesimaApache2.ApacheCompletes | desima/apache2.py:16 | with the binary found, the installation completes exactly when `apache2 -v` succeeds |
| DesimaApache2.ApacheTemplateChoice | desima/apache2.py:67 | `apache2/2.2.conf.template` exactly for a 2.2 banner, `apache2/2.4.conf.template` otherwise |
| DesimaApache2.ApacheConfMode | desima/apache2.py:69-73 | `apache2.conf` is written into the site directory with owner read-write rights |
| DesimaApache2.ApacheRow | desima/apache2.py:72-79 | step `6 + i` writes row i of the file table into the site directory with that row's rights |
| DesimaApache2.ApacheScriptModes | desima/apache2.py:70-76 | the three `www` scripts are owner read-write-execute and are the scripts `sdo` runs |
| DesimaApache2.ApachePortTokens | desima/apache2.py:49-54 | `HTTP_PORT` reads back as the port and `HTTPS_PORT` as the next one; `DAEMON` is the found binary |
| DesimaApache2.ApacheTokenValues | desima/apache2.py:53-54 | `HTTP_PORT` is `str(port)` and `HTTPS_PORT` is `str(port + 1)` |
| DesimaApache2.ApacheLeavesPrelude | desima/apache2.py:49-65 | the installer binds no `BASHPRELUDE` itself |
| DesimaApache2.ApacheTokenRendered | desima/apache2.py:79 | in each rendered file every installer token's placeholder becomes its value |
| DesimaApache2.ApacheDestinations | desima/apache2.py:72-77 | every destination is a relative path |
| DesimaApache2.ApacheTree | desima/apache2.py:33-79 | each directory is created after its parent and nothing outside the site directory is touched, binary or not |
| DesimaPgsql.DataRow | desima/pgsql.py:69-72 | the first three rows render the PostgreSQL configuration files into `db/data`, read-only |
| DesimaPgsql.Install | desima/pgsql.py:32-78 | with the binary found, the installation has eleven steps; `DesimaPgsql.PgsqlParts` states what each one is |
| DesimaPgsql.PgsqlInstall | desima/pgsql.py:24-78 | the installation is empty exactly when no PostgreSQL binary is found |
| DesimaPgsql.NoBinaryNoEffect | desima/pgsql.py:28-30 | without the binary, nothing happens and the call completes |
| DesimaPgsql.PgsqlParts | desima/pgsql.py:39-78 | four `db` directories, the checked `initdb --pgdata --username`, then the six rendered files |
| DesimaPgsql.PgsqlOrder | desima/pgsql.py:61-78 | directories first, then `initdb` (the only step that can fail), then every file |
| DesimaPgsql.PgsqlCompletes | desima/pgsql.py:62-67 | the installation completes exactly when `initdb` succeeds |
| DesimaPgsql.PgsqlInitFails | desima/pgsql.py:62-67 | when `initdb` fails, the directories exist and no file is rendered |
| DesimaPgsql.PgsqlConfigInDataDir | desima/pgsql.py:69-72 | the three configuration files sit directly in `db/data`, read-only and not executable |
| DesimaPgsql.PgsqlScript | desima/pgsql.py:73-75 | the three `db` scripts are executable and are the scripts `sdo` runs |
| DesimaPgsql.PgsqlPortTokens | desima/pgsql.py:44-58 | `PORT` reads back as `port + 2` and `ID` as the port; `DAEMON` is `<bindir>/postgres` |
| DesimaPgsql.PgsqlTokenValues | desima/pgsql.py:43-59 | `PORT` is `str(port + 2)` and `ID` is `str(port)` |
| DesimaPgsql.PgsqlLeavesPrelude | desima/pgsql.py:43-59 | the installer binds no `BASHPRELUDE` itself |
| DesimaPgsql.PgsqlTokenRendered | desima/pgsql.py:78 | in each rendered file every installer token's placeholder becomes its value |
| DesimaPgsql.PgsqlDestinations | desima/pgsql.py:69-76 | every destination is a relative path |
| DesimaPgsql.PgsqlTree | desima/pgsql.py:24-78 | each directory is created after its parent and nothing outside the site directory is touched |
| DesimaSite.AppPlan | desima/site.py:48-49 | the application step is empty exactly when no file is given; any file is passed on |
| DesimaSite.SiteInstall | desima/site.py:16-49 | errors before any effect; success exactly for a valid new identifier, whatever the application file; the site joins the registry stopped, knowing the control scripts the run actually wrote; the plan starts by creating the site directory |
| DesimaSite.SitePlan | desima/site.py:16-49 | the head, the database installer, the web server installer and the application step, in that order, starting with the site directory |
| DesimaSite.SitePlanHead | desima/site.py:28-33 | the site directory and `PORT` open the plan |
| DesimaSite.SitePlanParts | desima/site.py:36-49 | the chosen database installer, then the chosen web server installer, then the application, follow the head |
| DesimaSite.MissingPostgresSkipped | desima/site.py:36-46 | without PostgreSQL binaries a PostgreSQL site gets no database part but still its web server |
| DesimaSite.SiteLeavesDirectory | desima/site.py:28-46 | nothing is rolled back: the site directory and `PORT` remain whatever fails later, a non-archive application file included |
| DesimaSite.SitePortReadBack | desima/site.py:32-33 | `PORT` reads back as the port for every port the allocator hands out |
| DesimaSite.AppCreatesNothing | desima/site.py:48-49 | the application step creates and writes nothing itself |
| DesimaSite.DbTree | desima/site.py:36-46 | whichever database is chosen, parents come first and everything stays in the site directory |
| DesimaSite.SiteTree | desima/site.py:16-49 | whichever servers are chosen, the installation creates parents first and stays inside `BASE` |
| DesimaSite.SitePorts | desima/site.py:32-46 | HTTP on the port, HTTPS on the next, the database two above whichever database is chosen: exactly the site's block |
| DesimaSite.RemoveUndoesInstall | desima/site.py:51-71 | removing a just-installed site gives the registry back exactly when both `isrunning` scripts were written and `chmod` and `rm` succeed; otherwise the registry stays as installation left it |
| DesimaSite.PgsqlWithoutBinariesStays | desima/pgsql.py:24-30 | an Apache/PostgreSQL site installed without PostgreSQL binaries has no db `isrunning` script, so removing it raises and the site stays |
| DesimaSite.ApacheWritesNoDbScript | desima/apache2.py:72-79 | the Apache installer writes none of the db control scripts |
| DesimaSite.HeadWritesNoScript | desima/site.py:28-33 | creating the site directory and `PORT` writes no control script |

## Left out

- The GTK interfaces (`desima-gui.py`, `dsm-gui.py`) and the command-line dispatch and help text: presentation only.
- `mysql_log_file` and `apache2_log_file`: they only name log paths for the interfaces.
- `sites_states`: the running states and port it reads come from the `SiteRegistry.Site` record instead of from running scripts. In the package, `sites_states` (desima/utils.py:69-77) calls `sdo`, which asserts `is_valid_site_id` (desima/utils.py:64). So a hand-made directory such as `site-1x` or `site-_x` makes the package's `find_unused_port` raise AssertionError, whereas Ports.FindUnusedPort and SiteRegistry.FindUnusedPort always answer.
- Real effects are not executed: subprocesses, `glob`, `listdir`, `chmod`, `rm`, file reads and writes. Each becomes a plan step. Exit codes, `PATH`/`glob` results and the `apache2 -v` banner are inputs.
- Effects.Execute: only a failing checked command or a `Crash` step stops a plan. Creating a directory, writing a file, an unchecked `call`, feeding `mysql` through `Popen`, `rmdir` and `rename` are taken to succeed. In the source each can raise: `call` of a missing script, `Popen` with no `mysql` client, `rmdir` of a non-empty `doc` left by an archive rooted at `doc/`, `rename` of a single-file root such as `index.html/`, and any `mkdir` or write error. The one case modelled is a missing `isrunning` or `stop` script during removal.
- SiteRegistry.RemoveSite: a failing `chmod -R` or `rm -Rf` is taken to delete nothing, so the site stays with its scripts; in the source `rm -Rf` may have deleted part of the directory before failing.
- Desima.Register, Desima.InstallSite, DesimaSite.SiteInstall, Dsm.InstallSite, Dsm.RemoveSite and SiteRegistry.RemoveSite check identifiers with the corrected `SiteIds.IsValid`. For an identifier such as `a` followed by a newline they fail with `InvalidSiteId`, whereas the source, whose pattern accepts it, goes past the check and creates or removes a site directory whose name contains that newline. The listing side keeps the as-written behaviour: such a directory is listed and found (`SiteRegistry.NewlineDirectoryListed`, `Dsm.NewlineNameListed`).
- SiteIds.IsValid, SiteRegistry.MatchesSiteFormat, Dsm.MatchesSiteFormat, Desima.CreateDefaultUser, Dsm.CreateDefaultUser, DesimaMysql.CreateUser: `\w` and `\d` are read as ASCII. Python's `re` reads them as Unicode, so the source also accepts an identifier such as `aé` and lists such a directory; these members reject it or do not list it. The lifecycle therefore never feeds a non-ASCII identifier to the user creation. Where it can reach one, `create_default_user` is modelled with the source's behaviour: the database is started, the client launched, and `bytes(script, 'ASCII')` raises UnicodeEncodeError before the stop. DesimaMysql.CreateUser keeps the package's `assert is_valid_site_id`, and its template is not read, so it does not model that raise.
- Directory listings are given as `(name, isDir)` pairs. The `isdir(entry)` test relative to the current directory is not modelled.
- Archive format detection (`is_zipfile`, `is_tarfile`) and extraction itself are not modelled. The member list, or its absence, is an input.
- Template files are not read. A written file records the template path and the bindings; the 65536-byte read limit is not modelled.
- `string.Template` is modelled for the `$$`, `$KEY` and `${KEY}` forms with ASCII identifiers. Identifier rules for non-ASCII text are left out.
- Text.Words: splits on the ten ASCII whitespace characters only. `str.split()` also splits on non-ASCII whitespace such as `\x85` and `\xa0`; that, Unicode word characters for `\w` and Unicode case mapping are not modelled. The same holds for Text.CapWords and Applications.HumanName, which build on it.
- `int()` is modelled as optional ASCII whitespace, an optional sign and decimal digits. Underscores and non-ASCII digits are not modelled.
- The `assert isfile(application_file)` of the application installers is not modelled: file existence is outside the model.
- The `db_type`/`www_type` assertions of `site_install` are enforced by the `DesimaSite.DbType` and `DesimaSite.WwwType` datatypes.
- `SiteRegistry.Sdo` follows `desima.py`. The package's extra assertion that the identifier is valid is met by every caller here.
- `next()` raising StopIteration on an exhausted port range is modelled as `None`.

## Findings

| source | as written | input that shows it | evidently intended | confidence | as-written member | corrected member |
|---|---|---|---|---|---|---|
| desima.py:24 | `^[a-zA-Z]\w{0,23}$` with `re.match`: `$` also matches before one final newline | `"a\n"` is accepted as a site identifier | an identifier of an ASCII letter and 0–23 word characters, nothing after | high (regex semantics; not executed) | SiteIds.TrailingNewlineAccepted | SiteIds.ValidShape |
