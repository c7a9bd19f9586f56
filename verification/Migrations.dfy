/** The migration runner: each pending script once, in file-name order, across crashes and re-runs. */
module Migrations {
  import opened Bytes
  import Model

  /** How the n-th step ends: done, failed or crashed without effect, or crashed after taking effect. */
  type Env = nat -> Model.Outcome

  datatype Entry = Entry(name: Text, isDir: bool)

  /** The recorded versions and the scripts whose effects are in the schema, oldest first. */
  datatype Schema = Schema(applied: seq<Text>, executed: seq<Text>, calls: nat)

  const UP_SUFFIX: Text := [46, 117, 112, 46, 115, 113, 108]  // .up.sql

  predicate HasSuffix(name: Text) {
    |name| >= |UP_SUFFIX| && name[|name| - |UP_SUFFIX|..] == UP_SUFFIX
  }

  /** The name of a migration script. */
  type UpName = name: Text | HasSuffix(name) witness UP_SUFFIX

  function Version(name: UpName): Text {
    name[..|name| - |UP_SUFFIX|]
  }

  function UpFiles(entries: seq<Entry>): (files: seq<UpName>)
    ensures forall f: UpName :: f in files <==> exists e :: e in entries && !e.isDir && e.name == f
  {
    if entries == [] then []
    else
      var last := entries[|entries| - 1];
      UpFiles(entries[..|entries| - 1]) + if !last.isDir && HasSuffix(last.name) then [last.name] else []
  }

  /** Go's order on strings: bytewise, a proper prefix first. */
  predicate AtMost(s: Text, t: Text) {
    s == [] || (t != [] && (s[0] < t[0] || (s[0] == t[0] && AtMost(s[1..], t[1..]))))
  }

  function Insert(name: UpName, files: seq<UpName>): seq<UpName> {
    if files == [] || AtMost(name, files[0]) then [name] + files else [files[0]] + Insert(name, files[1..])
  }

  function Sort(files: seq<UpName>): seq<UpName> {
    if files == [] then [] else Insert(files[0], Sort(files[1..]))
  }

  predicate Sorted(files: seq<UpName>) { forall i, j :: 0 <= i < j < |files| ==> AtMost(files[i], files[j]) }

  predicate NoRepeats(s: seq<Text>) { forall i, j :: 0 <= i < j < |s| ==> s[i] != s[j] }

  /** One name comes before another if it is a prefix of it or has the smaller byte where they first differ. */
  lemma {:induction false} AtMostIsBytewise(s: Text, t: Text)
    ensures AtMost(s, t)
            <==> s <= t || exists i :: 0 <= i < |s| && i < |t| && s[..i] == t[..i] && s[i] < t[i]
    decreases |s|
  {
    if s != [] && t != [] {
      if s[0] < t[0] {
        assert s[..0] == t[..0];
      } else if s[0] == t[0] {
        AtMostIsBytewise(s[1..], t[1..]);
        assert s == [s[0]] + s[1..] && t == [t[0]] + t[1..];
        if i :| 0 <= i < |s[1..]| && i < |t[1..]| && s[1..][..i] == t[1..][..i] && s[1..][i] < t[1..][i] {
          assert s[..i + 1] == [s[0]] + s[1..][..i] == t[..i + 1];
        }
        if i :| 0 <= i < |s| && i < |t| && s[..i] == t[..i] && s[i] < t[i] {
          assert s[1..][..i - 1] == s[..i][1..] == t[1..][..i - 1];
        }
      } else if i :| 0 <= i < |s| && i < |t| && s[..i] == t[..i] && s[i] < t[i] {
        assert i == 0 || s[..i][0] == t[..i][0];
      }
    }
  }

  /** A script is a name that ends in .up.sql, and its version is what comes before that. */
  lemma VersionsAreStems(name: Text)
    ensures HasSuffix(name) <==> exists stem: Text :: name == stem + [46, 117, 112, 46, 115, 113, 108]
    ensures HasSuffix(name) ==> name == Version(name) + [46, 117, 112, 46, 115, 113, 108]
  {
    if HasSuffix(name) {
      assert name == Version(name) + [46, 117, 112, 46, 115, 113, 108];
    }
    if stem: Text :| name == stem + [46, 117, 112, 46, 115, 113, 108] {
      assert name[|stem|..] == [46, 117, 112, 46, 115, 113, 108];
    }
  }

  lemma {:induction false} AtMostTotal(s: Text, t: Text)
    ensures AtMost(s, t) || AtMost(t, s)
    decreases |s|
  {
    if s != [] && t != [] {
      AtMostTotal(s[1..], t[1..]);
    }
  }

  lemma {:induction false} AtMostTransitive(s: Text, t: Text, u: Text)
    requires AtMost(s, t) && AtMost(t, u)
    ensures AtMost(s, u)
    decreases |s|
  {
    if s != [] && s[0] == t[0] == u[0] {
      AtMostTransitive(s[1..], t[1..], u[1..]);
    }
  }

  lemma {:induction false} InsertSorts(name: UpName, files: seq<UpName>)
    requires Sorted(files)
    ensures Sorted(Insert(name, files)) && multiset(Insert(name, files)) == multiset(files) + multiset{name}
    decreases |files|
  {
    hide AtMost;
    if files != [] && AtMost(name, files[0]) {
      forall j | 0 <= j < |files| ensures AtMost(name, files[j]) {
        if j > 0 { AtMostTransitive(name, files[0], files[j]); }
      }
    } else if files != [] {
      var rest := files[1..];
      InsertSorts(name, rest);
      assert files == [files[0]] + rest;
      AtMostTotal(name, files[0]);
      var tail := Insert(name, rest);
      forall j | 0 <= j < |tail| ensures AtMost(files[0], tail[j]) {
        assert tail[j] in multiset(tail);
        assert tail[j] == name || tail[j] in rest;
      }
    }
  }

  /** Sorting orders the files and loses none. */
  lemma {:induction false} SortSorts(files: seq<UpName>)
    ensures Sorted(Sort(files)) && multiset(Sort(files)) == multiset(files)
    decreases |files|
  {
    if files != [] {
      SortSorts(files[1..]);
      InsertSorts(files[0], Sort(files[1..]));
      assert files == [files[0]] + files[1..];
    }
  }

  /** The scripts still to run, given the versions recorded when the run began. */
  function Pending(files: seq<UpName>, applied: set<Text>): (todo: seq<UpName>)
    ensures forall f :: f in todo <==> f in files && Version(f) !in applied
  {
    if files == [] then []
    else (if Version(files[0]) in applied then [] else [files[0]]) + Pending(files[1..], applied)
  }

  function Versions(files: seq<UpName>): (vs: seq<Text>)
    ensures |vs| == |files| && forall i :: 0 <= i < |vs| ==> vs[i] == Version(files[i])
  {
    seq(|files|, i requires 0 <= i < |files| => Version(files[i]))
  }

  function Range(s: seq<Text>): set<Text> { set x | x in s }

  /** Read each script, then run and record it in one transaction, stopping at the first failure. */
  function Apply(env: Env, schema: Schema, todo: seq<UpName>): (Schema, bool)
    decreases |todo|
  {
    if todo == [] then (schema, true)
    else
      var n := schema.calls;
      if !env(n).Good? then (schema.(calls := n + 1), false)
      else
        var committed := Schema(schema.applied + [Version(todo[0])], schema.executed + [todo[0]], n + 2);
        match env(n + 1)
        case Bad => (schema.(calls := n + 2), false)
        case Lost => (committed, false)
        case Good => Apply(env, committed, todo[1..])
  }

  /** The scripts of the directory in file-name order. */
  function Files(entries: seq<Entry>): seq<UpName> { Sort(UpFiles(entries)) }

  /** One run: prepare the table, list the directory, load the recorded versions, apply what is pending. */
  function MigrateOnce(env: Env, schema: Schema, entries: seq<Entry>): (Schema, bool) {
    var n := schema.calls;
    if !env(n).Good? then (schema.(calls := n + 1), false)
    else if !env(n + 1).Good? then (schema.(calls := n + 2), false)
    else if !env(n + 2).Good? then (schema.(calls := n + 3), false)
    else Apply(env, schema.(calls := n + 3), Pending(Files(entries), Range(schema.applied)))
  }

  /** A directory lists each name once. */
  predicate Directory(entries: seq<Entry>) {
    forall i, j :: 0 <= i < j < |entries| ==> entries[i].name != entries[j].name
  }

  lemma {:induction false} UpFilesOnce(entries: seq<Entry>)
    requires Directory(entries)
    ensures NoRepeats(UpFiles(entries))
    decreases |entries|
  {
    if entries != [] {
      var n := |entries| - 1;
      UpFilesOnce(entries[..n]);
      forall f | f in UpFiles(entries[..n]) ensures f != entries[n].name {
        var e :| e in entries[..n] && !e.isDir && e.name == f;
        var i :| 0 <= i < n && entries[..n][i] == e;
        assert entries[i].name != entries[n].name;
      }
      var files, before := UpFiles(entries), UpFiles(entries[..n]);
      forall i, j | 0 <= i < j < |files| ensures files[i] != files[j] {
        assert files[i] == before[i] && before[i] in before;
      }
    }
  }

  lemma NoRepeatsCount(s: seq<Text>)
    ensures NoRepeats(s) <==> forall x :: x in multiset(s) ==> multiset(s)[x] == 1
    decreases |s|
  {
    if s != [] {
      var last, rest := s[|s| - 1], s[..|s| - 1];
      assert s == rest + [last];
      NoRepeatsCount(rest);
      if NoRepeats(s) {
        assert last !in rest;
        assert multiset(s)[last] == 1;
        assert NoRepeats(rest);
      }
      if forall x :: x in multiset(s) ==> multiset(s)[x] == 1 {
        assert last in multiset(s);
        assert multiset(s)[last] == multiset(rest)[last] + 1;
        assert forall x :: x in multiset(rest) ==> x in multiset(s) && multiset(rest)[x] <= multiset(s)[x];
      }
    }
  }

  lemma FilesOnce(entries: seq<Entry>)
    requires Directory(entries)
    ensures NoRepeats(Files(entries))
  {
    UpFilesOnce(entries);
    SortSorts(UpFiles(entries));
    NoRepeatsCount(UpFiles(entries));
    NoRepeatsCount(Files(entries));
  }

  lemma FilesSorted(entries: seq<Entry>)
    ensures Sorted(Files(entries))
  {
    SortSorts(UpFiles(entries));
  }

  lemma {:induction false} PendingOnce(files: seq<UpName>, applied: set<Text>)
    requires NoRepeats(files)
    ensures NoRepeats(Pending(files, applied))
    decreases |files|
  {
    if files != [] {
      PendingOnce(files[1..], applied);
    }
  }

  /** Pending scripts keep the file-name order. */
  lemma {:induction false} PendingSorted(files: seq<UpName>, applied: set<Text>)
    requires Sorted(files)
    ensures Sorted(Pending(files, applied))
    decreases |files|
  {
    hide AtMost, Version;
    if files != [] {
      PendingSorted(files[1..], applied);
      forall f | f in Pending(files[1..], applied) ensures AtMost(files[0], f) {
        assert f in files[1..];
      }
    }
  }

  /** A version determines its file. */
  lemma SameVersionSameFile(f: UpName, g: UpName)
    requires Version(f) == Version(g)
    ensures f == g
  {
    assert f == Version(f) + UP_SUFFIX && g == Version(g) + UP_SUFFIX;
  }

  /** However a run ends, it has committed a prefix of what was pending, each script with its record. */
  lemma {:induction false} ApplyProgress(env: Env, schema: Schema, todo: seq<UpName>) returns (k: nat)
    ensures k <= |todo|
    ensures var (after, ok) := Apply(env, schema, todo);
            && after.applied == schema.applied + Versions(todo[..k])
            && after.executed == schema.executed + todo[..k]
            && (ok ==> k == |todo|)
            && ((forall n :: env(n).Good?) ==> ok)
    decreases |todo|
  {
    hide HasSuffix, Version, Versions;
    k := 0;
    VersionsOfSum([], []);
    if todo != [] {
      var n := schema.calls;
      var committed := Schema(schema.applied + [Version(todo[0])], schema.executed + [todo[0]], n + 2);
      assert todo[..1] == [todo[0]];
      VersionOfOne(todo[0]);
      if env(n).Good? && env(n + 1).Good? {
        var rest := todo[1..];
        var j := ApplyProgress(env, committed, rest);
        k := j + 1;
        assert todo[..k] == [todo[0]] + rest[..j];
        VersionsOfSum([todo[0]], rest[..j]);
      } else if env(n).Good? && env(n + 1).Lost? {
        k := 1;
      }
    }
  }

  lemma MigrateProgress(env: Env, schema: Schema, entries: seq<Entry>) returns (k: nat)
    ensures var todo := Pending(Files(entries), Range(schema.applied));
            var (after, ok) := MigrateOnce(env, schema, entries);
            && k <= |todo|
            && after.applied == schema.applied + Versions(todo[..k])
            && after.executed == schema.executed + todo[..k]
            && (ok ==> k == |todo|)
            && ((forall n :: env(n).Good?) ==> ok)
  {
    hide Apply, Files, Pending, HasSuffix, Versions;
    var todo := Pending(Files(entries), Range(schema.applied));
    var n := schema.calls;
    k := 0;
    VersionsOfSum([], []);
    if env(n).Good? && env(n + 1).Good? && env(n + 2).Good? {
      k := ApplyProgress(env, schema.(calls := n + 3), todo);
    }
  }

  lemma RangeOfSum(s: seq<Text>, t: seq<Text>)
    ensures Range(s + t) == Range(s) + Range(t) && Range([]) == {}
  {
  }

  lemma VersionsOfSum(s: seq<UpName>, t: seq<UpName>)
    ensures Versions(s + t) == Versions(s) + Versions(t) && Versions([]) == []
  {
  }

  lemma VersionOfOne(f: UpName)
    ensures Versions([f]) == [Version(f)] && Range([Version(f)]) == {Version(f)}
  {
  }

  /** The versions recorded by committing the first `k` pending scripts. */
  function Recorded(files: seq<UpName>, applied: set<Text>, k: nat): set<Text>
    requires k <= |Pending(files, applied)|
  {
    applied + Range(Versions(Pending(files, applied)[..k]))
  }

  /** After a prefix has been committed, exactly the rest is pending. */
  lemma {:induction false} PendingAfter(files: seq<UpName>, applied: set<Text>, k: nat)
    requires NoRepeats(files)
    requires k <= |Pending(files, applied)|
    ensures Pending(files, Recorded(files, applied, k)) == Pending(files, applied)[k..]
    decreases |files|
  {
    hide Versions, Range, HasSuffix;
    RangeOfSum([], []);
    VersionsOfSum([], []);
    if files != [] {
      if k == 0 {
        assert Pending(files, applied)[..0] == [] && applied + {} == applied;
      } else if Version(files[0]) in applied {
        assert files[0] in files && Pending(files, applied) == Pending(files[1..], applied);
        PendingAfter(files[1..], applied, k);
      } else {
        PendingAfterFirst(files, applied, k);
      }
    }
  }

  lemma {:induction false} PendingAfterFirst(files: seq<UpName>, applied: set<Text>, k: nat)
    requires NoRepeats(files) && files != []
    requires Version(files[0]) !in applied && 0 < k <= |Pending(files, applied)|
    ensures Pending(files, Recorded(files, applied, k)) == Pending(files, applied)[k..]
    decreases |files|, 0
  {
    hide Versions, Range, HasSuffix, Recorded;
    var rest, later := files[1..], Pending(files[1..], applied);
    PendingAfter(rest, applied, k - 1);
    RecordedFirst(files, applied, k);
    assert files[0] in files;
    PendingIgnores(rest, Recorded(rest, applied, k - 1), files[0]);
    assert Pending(files, applied)[k..] == later[k - 1..];
  }

  lemma RecordedFirst(files: seq<UpName>, applied: set<Text>, k: nat)
    requires files != []
    requires Version(files[0]) !in applied && 0 < k <= |Pending(files, applied)|
    ensures Recorded(files, applied, k) == Recorded(files[1..], applied, k - 1) + {Version(files[0])}
  {
    hide HasSuffix, Versions, Version, Range, Pending;
    var later := Pending(files[1..], applied);
    PendingStep(files, applied);
    assert Pending(files, applied)[..k] == [files[0]] + later[..k - 1];
    VersionsOfSum([files[0]], later[..k - 1]);
    RangeOfSum(Versions([files[0]]), Versions(later[..k - 1]));
    VersionOfOne(files[0]);
  }

  lemma {:induction false} PendingIgnores(files: seq<UpName>, applied: set<Text>, other: UpName)
    requires other !in files
    ensures Pending(files, applied + {Version(other)}) == Pending(files, applied)
    decreases |files|
  {
    if files != [] {
      PendingIgnores(files[1..], applied, other);
      if Version(files[0]) == Version(other) {
        SameVersionSameFile(files[0], other);
      }
    }
  }

  /** The process starts again and again, each run with its own outcomes. */
  function Runs(envs: seq<Env>, schema: Schema, entries: seq<Entry>): Schema
    decreases |envs|
  {
    if envs == [] then schema else Runs(envs[1..], MigrateOnce(envs[0], schema, entries).0, entries)
  }

  /** `after` is `schema` with the first `k` of these scripts run and recorded. */
  ghost predicate Committed(schema: Schema, after: Schema, todo: seq<UpName>, k: nat)
  {
    && k <= |todo|
    && after.applied == schema.applied + Versions(todo[..k])
    && after.executed == schema.executed + todo[..k]
  }

  lemma CommittedChains(a: Schema, b: Schema, c: Schema, todo: seq<UpName>, j: nat, k: nat)
    requires Committed(a, b, todo, j) && Committed(b, c, todo[j..], k)
    ensures Committed(a, c, todo, j + k)
  {
    hide Versions, HasSuffix;
    assert todo[..j + k] == todo[..j] + todo[j..][..k];
    VersionsOfSum(todo[..j], todo[j..][..k]);
    assert a.applied + Versions(todo[..j]) + Versions(todo[j..][..k])
           == a.applied + (Versions(todo[..j]) + Versions(todo[j..][..k]));
  }

  lemma {:induction false} PendingNext(schema: Schema, after: Schema, files: seq<UpName>, k: nat)
    requires NoRepeats(files)
    requires Committed(schema, after, Pending(files, Range(schema.applied)), k)
    ensures Pending(files, Range(after.applied)) == Pending(files, Range(schema.applied))[k..]
  {
    hide Versions, Range, HasSuffix;
    RangeOfSum(schema.applied, Versions(Pending(files, Range(schema.applied))[..k]));
    PendingAfter(files, Range(schema.applied), k);
  }

  /** Over any number of runs on one directory, what was committed is a prefix of what was first pending. */
  lemma {:induction false} RunsProgress(envs: seq<Env>, schema: Schema, entries: seq<Entry>) returns (k: nat)
    requires Directory(entries)
    ensures Committed(schema, Runs(envs, schema, entries), Pending(Files(entries), Range(schema.applied)), k)
    decreases |envs|
  {
    hide MigrateOnce, Files, Pending, HasSuffix, Versions, Range;
    if envs == [] {
      k := 0;
      VersionsOfSum([], []);
    } else {
      hide Committed;
      FilesOnce(entries);
      var j := MigrateProgress(envs[0], schema, entries);
      var next := MigrateOnce(envs[0], schema, entries).0;
      MigrateCommits(envs[0], schema, entries, j);
      PendingNext(schema, next, Files(entries), j);
      var i := RunsProgress(envs[1..], next, entries);
      CommittedChains(schema, next, Runs(envs, schema, entries), Pending(Files(entries), Range(schema.applied)), j, i);
      k := j + i;
    }
  }

  lemma MigrateCommits(env: Env, schema: Schema, entries: seq<Entry>, k: nat)
    requires var todo := Pending(Files(entries), Range(schema.applied));
             var after := MigrateOnce(env, schema, entries).0;
             && k <= |todo|
             && after.applied == schema.applied + Versions(todo[..k]) && after.executed == schema.executed + todo[..k]
    ensures Committed(schema, MigrateOnce(env, schema, entries).0, Pending(Files(entries), Range(schema.applied)), k)
  {
  }

  /**
   Crashing and resuming any number of times and then succeeding once ends in the same schema as one
   uninterrupted run: every version recorded, every pending script run exactly once and in order.
   */
  lemma {:induction false} ResumingIsUninterrupted(envs: seq<Env>, last: Env, calm: Env, schema: Schema,
                                                   entries: seq<Entry>)
    requires Directory(entries) && forall n :: calm(n).Good?
    requires MigrateOnce(last, Runs(envs, schema, entries), entries).1
    ensures var resumed := MigrateOnce(last, Runs(envs, schema, entries), entries).0;
            var once := MigrateOnce(calm, schema, entries).0;
            && resumed.applied == once.applied && resumed.executed == once.executed
    ensures var todo := Pending(Files(entries), Range(schema.applied));
            var resumed := MigrateOnce(last, Runs(envs, schema, entries), entries).0;
            && resumed.executed == schema.executed + todo && NoRepeats(todo) && Sorted(todo)
            && Range(resumed.applied) == Range(schema.applied) + Range(Versions(Files(entries)))
  {
    hide MigrateOnce, Runs, HasSuffix, Files, Pending, Versions, Range, Sorted;
    var todo := Pending(Files(entries), Range(schema.applied));
    FilesOnce(entries);
    PendingOnce(Files(entries), Range(schema.applied));
    assert Sorted(Files(entries)) by { FilesSorted(entries); }
    PendingSorted(Files(entries), Range(schema.applied));
    var k := RunsProgress(envs, schema, entries);
    var crashed := Runs(envs, schema, entries);
    PendingNext(schema, crashed, Files(entries), k);
    var j := MigrateProgress(last, crashed, entries);
    CommittedChains(schema, crashed, MigrateOnce(last, crashed, entries).0, todo, k, j);
    var i := MigrateProgress(calm, schema, entries);
    assert todo[..|todo|] == todo;
    AllVersions(Files(entries), Range(schema.applied));
    RangeOfSum(schema.applied, Versions(todo));
  }

  lemma AllVersions(files: seq<UpName>, applied: set<Text>)
    ensures applied + Range(Versions(Pending(files, applied))) == applied + Range(Versions(files))
  {
    var todo := Pending(files, applied);
    forall v | v in Range(Versions(files)) && v !in applied ensures v in Range(Versions(todo)) {
      var i :| 0 <= i < |files| && Version(files[i]) == v;
      assert files[i] in todo;
      var j :| 0 <= j < |todo| && todo[j] == files[i];
      assert Versions(todo)[j] == v;
    }
    forall v | v in Range(Versions(todo)) ensures v in Range(Versions(files)) {
      var j :| 0 <= j < |todo| && Version(todo[j]) == v;
      assert todo[j] in todo;
      var i :| 0 <= i < |files| && files[i] == todo[j];
      assert Versions(files)[i] == v;
    }
  }

  /** The runner over the database it migrates. */
  class MigrationRunner {
    const env: Env
    var applied: seq<Text>
    var executed: seq<Text>
    var calls: nat

    constructor (env: Env)
      ensures this.env == env && State() == Schema([], [], 0)
    {
      this.env, applied, executed, calls := env, [], [], 0;
    }

    function State(): Schema
      reads this
    {
      Schema(applied, executed, calls)
    }

    method Call() returns (outcome: Model.Outcome)
      modifies `calls
      ensures outcome == env(old(calls)) && calls == old(calls) + 1
    {
      outcome := env(calls);
      calls := calls + 1;
    }

    /** The loop over the listing that keeps the *.up.sql files. */
    static method CollectUpFiles(entries: seq<Entry>) returns (files: seq<UpName>)
      ensures files == UpFiles(entries)
    {
      files := [];
      for i := 0 to |entries|
        invariant files == UpFiles(entries[..i])
      {
        assert entries[..i + 1][..i] == entries[..i];
        if !entries[i].isDir && HasSuffix(entries[i].name) {
          files := files + [entries[i].name];
        }
      }
      assert entries[..|entries|] == entries;
    }

    method AppliedSet() returns (known: set<Text>)
      ensures known == Range(applied)
    {
      known := {};
      for i := 0 to |applied|
        invariant known == Range(applied[..i])
      {
        assert applied[..i + 1] == applied[..i] + [applied[i]];
        known := known + {applied[i]};
      }
      assert applied[..|applied|] == applied;
    }

    /** Run one script and record its version, both or neither. */
    method Transaction(name: UpName) returns (ok: bool)
      modifies this
      ensures calls == old(calls) + 1 && ok == env(old(calls)).Good?
      ensures (applied, executed) == if env(old(calls)).Bad? then (old(applied), old(executed))
                                     else (old(applied) + [Version(name)], old(executed) + [name])
    {
      var outcome := Call();
      if !outcome.Bad? {
        applied, executed := applied + [Version(name)], executed + [name];
      }
      ok := outcome.Good?;
    }

    /** The loop that applies what is not recorded yet. */
    method ApplyPending(files: seq<UpName>, known: set<Text>) returns (ok: bool)
      modifies this
      ensures (State(), ok) == Apply(env, old(State()), Pending(files, known))
    {
      hide Apply, Pending, Version;
      PendingNothing(known);
      for i := 0 to |files|
        invariant Apply(env, old(State()), Pending(files, known)) == Apply(env, State(), Pending(files[i..], known))
      {
        PendingStep(files[i..], known);
        assert files[i..][1..] == files[i + 1..];
        if Version(files[i]) in known {
          continue;
        }
        ApplyStep(env, State(), files[i], Pending(files[i + 1..], known));
        var read := Call();
        if !read.Good? {
          return false;
        }
        var committed := Transaction(files[i]);
        if !committed {
          return false;
        }
      }
      ApplyNothing(env, State());
      ok := true;
    }

    method Migrate(entries: seq<Entry>) returns (ok: bool)
      modifies this
      ensures (State(), ok) == MigrateOnce(env, old(State()), entries)
    {
      hide Sort, Apply, Pending;
      var prepared := Call();
      if !prepared.Good? {
        return false;
      }
      var listed := Call();
      if !listed.Good? {
        return false;
      }
      var upFiles := CollectUpFiles(entries);
      var files := Sort(upFiles);
      var loaded := Call();
      if !loaded.Good? {
        return false;
      }
      var known := AppliedSet();
      ok := ApplyPending(files, known);
    }
  }

  lemma PendingNothing(applied: set<Text>)
    ensures Pending([], applied) == []
  {
  }

  lemma PendingStep(files: seq<UpName>, applied: set<Text>)
    requires files != []
    ensures Pending(files, applied)
            == if Version(files[0]) in applied then Pending(files[1..], applied)
               else [files[0]] + Pending(files[1..], applied)
  {
  }

  lemma ApplyNothing(env: Env, schema: Schema)
    ensures Apply(env, schema, []) == (schema, true)
  {
  }

  lemma ApplyStep(env: Env, schema: Schema, first: UpName, rest: seq<UpName>)
    ensures var n := schema.calls;
            var committed := Schema(schema.applied + [Version(first)], schema.executed + [first], n + 2);
            Apply(env, schema, [first] + rest)
            == if !env(n).Good? then (schema.(calls := n + 1), false)
               else match env(n + 1)
                    case Bad => (schema.(calls := n + 2), false)
                    case Lost => (committed, false)
                    case Good => Apply(env, committed, rest)
  {
    assert ([first] + rest)[1..] == rest;
  }
}
