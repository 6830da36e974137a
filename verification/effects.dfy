/** The effects an operation has on the machine, as a plan of actions, and
    what running a plan does when a checked command fails or Python raises. */
module Effects {
  import opened Wrappers
  import opened Text
  import Paths

  /** Permission bits of the `stat` module. */
  const OwnerRead: int := 0x100   // S_IREAD, S_IRUSR
  const OwnerWrite: int := 0x80   // S_IWUSR
  const OwnerExec: int := 0x40    // S_IEXEC, S_IXUSR

  /** `S_IREAD`: generated configuration, read-only. */
  const ReadOnly: int := OwnerRead
  /** `S_IREAD | S_IEXEC`: generated control scripts. */
  const ReadExec: int := OwnerRead + OwnerExec
  /** `S_IRUSR | S_IWUSR`. */
  const ReadWrite: int := OwnerRead + OwnerWrite
  /** `S_IRUSR | S_IWUSR | S_IXUSR`. */
  const ReadWriteExec: int := OwnerRead + OwnerWrite + OwnerExec

  predicate CanExecute(mode: int) {
    (mode / OwnerExec) % 2 == 1
  }

  predicate CanWrite(mode: int) {
    (mode / OwnerWrite) % 2 == 1
  }

  predicate CanRead(mode: int) {
    (mode / OwnerRead) % 2 == 1
  }

  /** What the modes the installers give allow the owner. */
  lemma ModeBits()
    ensures CanRead(ReadOnly) && !CanWrite(ReadOnly) && !CanExecute(ReadOnly)
    ensures CanRead(ReadExec) && !CanWrite(ReadExec) && CanExecute(ReadExec)
    ensures CanRead(ReadWrite) && CanWrite(ReadWrite) && !CanExecute(ReadWrite)
    ensures CanRead(ReadWriteExec) && CanWrite(ReadWriteExec) && CanExecute(ReadWriteExec)
  {
  }

  /** Argument vector of a subprocess. */
  type Command = seq<string>

  /** What a written file holds. Template files themselves are not part of the
      model: a rendered file is described by the template it comes from and
      the values given to the engine. */
  datatype Content =
    | Literal(text: string)
      // `generate_configuration` over a template file
    | Tagged(template: string, tags: seq<(string, string)>)
      // `Template.safe_substitute` over a template file
    | Substituted(template: string, tokens: map<string, string>)

  datatype Action =
    | Mkdir(path: string)
      // write then `chmod` when a mode is given
    | Write(path: string, content: Content, mode: Option<int>)
      // `check_call` when checked, `call` otherwise
    | Run(argv: Command, checked: bool)
      // `Popen(argv).communicate(input)`, whose outcome is never looked at
    | Feed(argv: Command, input: Content)
    | Rmdir(path: string)
    | Rename(source: string, target: string)
      // an exception raised partway through a plan
    | Crash(reason: string)

  type Plan = seq<Action>

  /** One `(template, destination, rights)` row of an installer's file table. */
  datatype FileSpec = FileSpec(template: string, destination: string, mode: int)

  /** `mkdir` of each directory in turn. */
  function MkdirEach(dirs: seq<string>): (plan: Plan)
    ensures |plan| == |dirs|
    ensures forall i :: 0 <= i < |dirs| ==> plan[i] == Mkdir(dirs[i])
  {
    seq(|dirs|, i requires 0 <= i < |dirs| => Mkdir(dirs[i]))
  }

  /** A plan of `mkdir`s writes nothing and cannot halt: run, it creates
      exactly the directories given. */
  lemma MkdirEachCreates(dirs: seq<string>, fails: Command -> bool)
    ensures NeverHalts(MkdirEach(dirs))
    ensures Execute(MkdirEach(dirs), fails).completed
    ensures forall p :: Mkdir(p) in Execute(MkdirEach(dirs), fails).performed <==> p in dirs
    ensures forall p :: !Writes(MkdirEach(dirs), p)
  {
    var plan := MkdirEach(dirs);
    assert NeverHalts(plan);
    NeverHaltsCompletes(plan, fails);
    assert forall i :: 0 <= i < |plan| ==> plan[i].Mkdir?;
    forall p
      ensures Mkdir(p) in plan <==> p in dirs
    {
      if Mkdir(p) in plan {
        var i :| 0 <= i < |plan| && plan[i] == Mkdir(p);
        assert dirs[i] == p;
      }
      if p in dirs {
        var i :| 0 <= i < |dirs| && dirs[i] == p;
        assert plan[i] == Mkdir(p);
      }
    }
  }

  /** Whether an action stops the rest of the plan: an exception, or a checked
      command whose exit status is non-zero. */
  predicate Halts(a: Action, fails: Command -> bool) {
    a.Crash? || (a.Run? && a.checked && fails(a.argv))
  }

  datatype Outcome = Outcome(performed: Plan, completed: bool)

  /** Running a plan: actions take effect one after another until one halts;
      nothing already done is undone. */
  function Execute(plan: Plan, fails: Command -> bool): (o: Outcome)
    ensures o.performed <= plan
    ensures o.completed <==> forall i :: 0 <= i < |plan| ==> !Halts(plan[i], fails)
    ensures o.completed ==> o.performed == plan
    ensures !o.completed ==> |o.performed| > 0 && Halts(o.performed[|o.performed| - 1], fails)
    ensures forall i :: 0 <= i < |o.performed| - 1 ==> !Halts(o.performed[i], fails)
    decreases |plan|
  {
    if |plan| == 0 then Outcome([], true)
    else if Halts(plan[0], fails) then Outcome([plan[0]], false)
    else
      var rest := Execute(plan[1..], fails);
      Outcome([plan[0]] + rest.performed, rest.completed)
  }

  /** Actions before the first halting one are always performed. */
  lemma {:induction false} ExecutePerformsPrefix(plan: Plan, fails: Command -> bool, k: nat)
    requires k <= |plan|
    requires forall i :: 0 <= i < k ==> !Halts(plan[i], fails)
    ensures plan[..k] <= Execute(plan, fails).performed
    decreases k
  {
    if k > 0 {
      assert forall i :: 0 <= i < k - 1 ==> plan[1..][i] == plan[i + 1];
      ExecutePerformsPrefix(plan[1..], fails, k - 1);
      PerformedAfterFirst(plan, fails, k);
    }
  }

  /** When the first action does not halt, what the rest performs follows it. */
  lemma PerformedAfterFirst(plan: Plan, fails: Command -> bool, k: nat)
    requires 0 < k <= |plan| && !Halts(plan[0], fails)
    requires plan[1..][..k - 1] <= Execute(plan[1..], fails).performed
    ensures plan[..k] <= Execute(plan, fails).performed
  {
    ConsPrefix(plan, k, Execute(plan[1..], fails).performed);
  }

  /** A prefix of the tail, after the head, is a prefix of the whole. */
  lemma ConsPrefix(plan: Plan, k: nat, rest: Plan)
    requires 0 < k <= |plan|
    requires plan[1..][..k - 1] <= rest
    ensures plan[..k] <= [plan[0]] + rest
  {
    assert plan[..k] == [plan[0]] + plan[1..][..k - 1];
  }

  /** A plan whose step `k` halts, after `k` steps that do not, performs
      exactly those steps and the halting one. */
  lemma StopsAt(plan: Plan, fails: Command -> bool, k: nat)
    requires k < |plan| && Halts(plan[k], fails)
    requires forall i :: 0 <= i < k ==> !Halts(plan[i], fails)
    ensures !Execute(plan, fails).completed
    ensures Execute(plan, fails).performed == plan[..k + 1]
  {
    var p := Execute(plan, fails).performed;
    var n := |p|;
    assert p == plan[..n];
    assert Halts(plan[n - 1], fails);
  }

  /** A plan that starts with `head`, no action of which can halt, performs
      `head` whatever happens later. */
  lemma HeadPerformed(plan: Plan, head: Plan, fails: Command -> bool)
    requires |head| <= |plan| && plan[..|head|] == head
    requires NeverHalts(head)
    ensures |Execute(plan, fails).performed| >= |head| && Execute(plan, fails).performed[..|head|] == head
  {
    ExecutePerformsPrefix(plan, fails, |head|);
  }

  lemma AppendAssoc(a: Plan, b: Plan, c: Plan)
    ensures a + b + c == a + (b + c)
  {
  }

  /** Each part of a plan assembled from three parts is the slice it occupies. */
  lemma Slices3(a: Plan, b: Plan, c: Plan)
    ensures var p := a + b + c;
      && p[..|a|] == a
      && p[|a|..|a| + |b|] == b
      && p[|a| + |b|..] == c
  {
  }

  /** Each part of a plan assembled from four parts is the slice it occupies. */
  lemma Slices4(a: Plan, b: Plan, c: Plan, d: Plan)
    ensures var p := a + b + c + d;
      && p[..|a|] == a
      && p[|a|..|a| + |b|] == b
      && p[|a| + |b|..|a| + |b| + |c|] == c
      && p[|a| + |b| + |c|..] == d
  {
  }

  /** Whether an action can stop a plan at all, whatever the exit statuses. */
  predicate MayHalt(a: Action) {
    a.Crash? || (a.Run? && a.checked)
  }

  /** A plan with neither a checked command nor an exception always runs to
      the end. */
  predicate NeverHalts(plan: Plan) {
    forall i :: 0 <= i < |plan| ==> !MayHalt(plan[i])
  }

  /** Whether some step of the plan writes the file. */
  predicate Writes(plan: Plan, path: string) {
    exists i :: 0 <= i < |plan| && plan[i].Write? && plan[i].path == path
  }

  /** Where each of three concatenated plans sits in the whole. */
  lemma PartsOf3(a: Plan, b: Plan, c: Plan)
    ensures forall i :: 0 <= i < |a| ==> (a + b + c)[i] == a[i]
    ensures forall i :: |a| <= i < |a| + |b| ==> (a + b + c)[i] == b[i - |a|]
    ensures forall i :: |a| + |b| <= i < |a| + |b| + |c| ==> (a + b + c)[i] == c[i - |a| - |b|]
  {
  }

  /** A plan writes a file exactly when one of its parts does. */
  lemma WritesAppend(a: Plan, b: Plan, path: string)
    ensures Writes(a + b, path) <==> Writes(a, path) || Writes(b, path)
  {
    if Writes(a + b, path) {
      var i :| 0 <= i < |a + b| && (a + b)[i].Write? && (a + b)[i].path == path;
      if i >= |a| {
        assert b[i - |a|] == (a + b)[i];
      }
    }
    if Writes(a, path) {
      var i :| 0 <= i < |a| && a[i].Write? && a[i].path == path;
      assert (a + b)[i] == a[i];
    }
    if Writes(b, path) {
      var i :| 0 <= i < |b| && b[i].Write? && b[i].path == path;
      assert (a + b)[|a| + i] == b[i];
    }
  }

  /** What a prefix of a plan writes, the plan writes. */
  lemma WritesPrefix(performed: Plan, plan: Plan, path: string)
    requires performed <= plan && Writes(performed, path)
    ensures Writes(plan, path)
  {
    var i :| 0 <= i < |performed| && performed[i].Write? && performed[i].path == path;
    assert plan[i] == performed[i];
  }

  /** A plan cannot halt exactly when neither of its parts can. */
  lemma NeverHaltsAppend(a: Plan, b: Plan)
    ensures NeverHalts(a + b) <==> NeverHalts(a) && NeverHalts(b)
  {
    assert forall i :: 0 <= i < |a| ==> (a + b)[i] == a[i];
    assert forall i :: 0 <= i < |b| ==> (a + b)[|a| + i] == b[i];
  }

  lemma NeverHaltsCompletes(plan: Plan, fails: Command -> bool)
    requires NeverHalts(plan)
    ensures Execute(plan, fails).completed && Execute(plan, fails).performed == plan
  {
  }

  /** A plan whose only checked step is the command at `k` runs to the end
      exactly when that command succeeds. */
  lemma CompletesUnlessStepFails(plan: Plan, k: nat, fails: Command -> bool)
    requires k < |plan| && plan[k].Run? && plan[k].checked
    requires forall i :: 0 <= i < |plan| && i != k ==> !MayHalt(plan[i])
    ensures Execute(plan, fails).completed <==> !fails(plan[k].argv)
  {
    assert forall i :: 0 <= i < |plan| && i != k ==> !Halts(plan[i], fails);
  }

  // ---------------------------------------------------------------------------
  // Views of a plan

  /** Position of the first occurrence of `a` in the plan, `|plan|` when absent. */
  function IndexOf(plan: Plan, a: Action): (k: nat)
    ensures k <= |plan|
    ensures k < |plan| ==> plan[k] == a
    ensures forall i :: 0 <= i < k ==> plan[i] != a
    ensures k == |plan| <==> a !in plan
    decreases |plan|
  {
    if |plan| == 0 then 0
    else if plan[0] == a then 0
    else 1 + IndexOf(plan[1..], a)
  }

  /** `p` lies strictly inside directory `root`. */
  predicate IsUnder(p: string, root: string) {
    StartsWith(p, root + "/") && |p| > |root| + 1
  }

  /** A usable directory path: non-empty and without a trailing slash. */
  predicate IsDirPath(d: string) {
    |d| > 0 && d[|d| - 1] != '/'
  }

  /** A single path component. */
  predicate IsComponent(name: string) {
    |name| > 0 && '/' !in name
  }

  lemma IsUnderTrans(p: string, d: string, root: string)
    requires IsUnder(p, d) && IsUnder(d, root)
    ensures IsUnder(p, root)
  {
    assert p[..|root| + 1] == p[..|d| + 1][..|root| + 1];
    assert d[..|root| + 1] == (d + "/")[..|root| + 1];
  }

  /** Joining a component under a directory gives a directory path directly
      inside it. */
  lemma ChildOf(d: string, name: string)
    requires IsDirPath(d) && IsComponent(name)
    ensures Paths.Join(d, name) == d + "/" + name
    ensures IsDirPath(Paths.Join(d, name))
    ensures IsUnder(Paths.Join(d, name), d)
    ensures Paths.Dirname(Paths.Join(d, name)) == d
  {
    Paths.DirnameOfJoin(d, name);
    var p := d + "/" + name;
    assert p[|p| - 1] == name[|name| - 1];
    assert p[..|d| + 1] == d + "/";
  }

  /** A relative path joined under a directory lies inside it. */
  lemma RelativeUnder(d: string, rel: string)
    requires IsDirPath(d) && |rel| > 0 && rel[0] != '/'
    ensures Paths.Join(d, rel) == d + "/" + rel
    ensures IsUnder(Paths.Join(d, rel), d)
  {
    var p := d + "/" + rel;
    assert p[..|d| + 1] == d + "/";
  }

  /** Every directory the plan creates is created after its parent, the
      first ones sitting directly in `root`. */
  predicate ParentsFirst(plan: Plan, root: string) {
    forall i :: 0 <= i < |plan| && plan[i].Mkdir? ==>
      Paths.Dirname(plan[i].path) == root || Mkdir(Paths.Dirname(plan[i].path)) in plan[..i]
  }

  /** Running a plan whose directories hang under `sub` after one that creates
      `sub` (or when `sub` is `root` itself) keeps parents first. */
  lemma ParentsFirstAppend(a: Plan, b: Plan, root: string, sub: string)
    requires ParentsFirst(a, root) && ParentsFirst(b, sub)
    requires sub == root || Mkdir(sub) in a
    ensures ParentsFirst(a + b, root)
  {
    var all := a + b;
    forall i | 0 <= i < |all| && all[i].Mkdir?
      ensures Paths.Dirname(all[i].path) == root || Mkdir(Paths.Dirname(all[i].path)) in all[..i]
    {
      if i < |a| {
        assert all[..i] == a[..i];
      } else {
        var k := i - |a|;
        assert all[i] == b[k];
        assert all[..i] == a + b[..k];
      }
    }
  }

  /** A plan without `mkdir` trivially keeps parents first. */
  lemma ParentsFirstNoMkdir(plan: Plan, root: string)
    requires forall i :: 0 <= i < |plan| ==> !plan[i].Mkdir?
    ensures ParentsFirst(plan, root)
  {
  }

  /** Directories created parents first, then writes that create nothing,
      all inside `root`. */
  lemma DirsThenWrites(mkdirs: Plan, writes: Plan, root: string)
    requires ParentsFirst(mkdirs, root) && Confined(mkdirs, root) && Confined(writes, root)
    requires forall i :: 0 <= i < |writes| ==> !writes[i].Mkdir?
    ensures ParentsFirst(mkdirs + writes, root) && Confined(mkdirs + writes, root)
  {
    ParentsFirstNoMkdir(writes, root);
    ParentsFirstAppend(mkdirs, writes, root, root);
    ConfinedAppend(mkdirs, writes, root);
  }

  /** `join(d, name)` for each name, in order. */
  function Children(d: string, names: seq<string>): (paths: seq<string>)
    ensures |paths| == |names|
    ensures forall k :: 0 <= k < |names| ==> paths[k] == Paths.Join(d, names[k])
  {
    seq(|names|, k requires 0 <= k < |names| => Paths.Join(d, names[k]))
  }

  /** Joined to a directory, single components give paths inside it whose
      parent is that directory, and different components give different
      paths. */
  lemma ChildrenInside(d: string, names: seq<string>)
    requires IsDirPath(d)
    requires forall k :: 0 <= k < |names| ==> IsComponent(names[k])
    ensures forall k :: 0 <= k < |names| ==>
      IsUnder(Children(d, names)[k], d) && Paths.Dirname(Children(d, names)[k]) == d
    ensures forall j, k :: 0 <= j < |names| && 0 <= k < |names| && names[j] != names[k] ==>
      Children(d, names)[j] != Children(d, names)[k]
  {
    var paths := Children(d, names);
    forall k | 0 <= k < |names|
      ensures IsUnder(paths[k], d) && Paths.Dirname(paths[k]) == d
    {
      ChildOf(d, names[k]);
    }
    forall j, k | 0 <= j < |names| && 0 <= k < |names| && names[j] != names[k]
      ensures paths[j] != paths[k]
    {
      Paths.JoinInjective(d, names[j], names[k]);
    }
  }

  /** Creating a directory `dir` in `root`, then directories inside that one,
      keeps parents first and stays inside `root`. */
  lemma MkdirFamily(root: string, dir: string, names: seq<string>)
    requires IsDirPath(root) && IsComponent(dir)
    requires forall k :: 0 <= k < |names| ==> IsComponent(names[k])
    ensures ParentsFirst(MkdirEach([Paths.Join(root, dir)] + Children(Paths.Join(root, dir), names)), root)
    ensures Confined(MkdirEach([Paths.Join(root, dir)] + Children(Paths.Join(root, dir), names)), root)
  {
    var first := Paths.Join(root, dir);
    ChildOf(root, dir);
    var plan := MkdirEach([first] + Children(first, names));
    forall i | 1 <= i < |plan|
      ensures Mkdir(first) in plan[..i] && Paths.Dirname(plan[i].path) == first && IsUnder(plan[i].path, root)
    {
      FamilyMember(root, first, names, i);
    }
  }

  /** A later member of the family is created after `first`, inside it. */
  lemma FamilyMember(root: string, first: string, names: seq<string>, i: nat)
    requires IsDirPath(first) && IsUnder(first, root)
    requires forall k :: 0 <= k < |names| ==> IsComponent(names[k])
    requires 1 <= i <= |names|
    ensures var plan := MkdirEach([first] + Children(first, names));
      Mkdir(first) in plan[..i] && Paths.Dirname(plan[i].path) == first && IsUnder(plan[i].path, root)
  {
    var plan := MkdirEach([first] + Children(first, names));
    assert plan[..i][0] == Mkdir(first);
    assert plan[i] == Mkdir(Paths.Join(first, names[i - 1]));
    ChildOf(first, names[i - 1]);
    IsUnderTrans(plan[i].path, first, root);
  }

  /** Every directory created and every file written lies inside `root`. */
  predicate Confined(plan: Plan, root: string) {
    forall i :: 0 <= i < |plan| ==>
      (plan[i].Mkdir? ==> IsUnder(plan[i].path, root))
      && (plan[i].Write? ==> IsUnder(plan[i].path, root))
  }

  lemma ConfinedAppend(a: Plan, b: Plan, root: string)
    requires Confined(a, root) && Confined(b, root)
    ensures Confined(a + b, root)
  {
    forall i | 0 <= i < |a + b|
      ensures ((a + b)[i].Mkdir? ==> IsUnder((a + b)[i].path, root))
        && ((a + b)[i].Write? ==> IsUnder((a + b)[i].path, root))
    {
      if i >= |a| {
        assert (a + b)[i] == b[i - |a|];
      }
    }
  }

  /** A plan of commands only neither creates nor writes anything. */
  lemma CommandsOnly(plan: Plan, root: string)
    requires forall i :: 0 <= i < |plan| ==> plan[i].Run? || plan[i].Feed? || plan[i].Crash?
    ensures ParentsFirst(plan, root) && Confined(plan, root)
  {
  }

  lemma ConfinedWiden(plan: Plan, d: string, root: string)
    requires Confined(plan, d) && IsUnder(d, root)
    ensures Confined(plan, root)
  {
    forall i | 0 <= i < |plan| && (plan[i].Mkdir? || plan[i].Write?)
      ensures IsUnder(plan[i].path, root)
    {
      IsUnderTrans(plan[i].path, d, root);
    }
  }
}
