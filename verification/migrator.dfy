// Resumable schema migrations, internal/store/migrator.go, over a database with atomic
// transactions. A migration file stands for its base name, which is its version.

module Migrator {
  import opened Common
  import Text

  datatype DirEntry = DirEntry(name: string, isDir: bool)

  datatype File = File(version: string, content: string)

  // ---------------------------------------------------------------------------------------
  // The migration files, sorted
  // ---------------------------------------------------------------------------------------

  // Byte-wise string order.
  predicate Leq(a: string, b: string) {
    a == "" || (b != "" && (a[0] < b[0] || (a[0] == b[0] && Leq(a[1..], b[1..]))))
  }

  lemma {:induction false} LeqTotal(a: string, b: string)
    ensures Leq(a, b) || Leq(b, a)
  {
    if a != "" && b != "" {
      LeqTotal(a[1..], b[1..]);
    }
  }

  lemma {:induction false} LeqAntisymmetric(a: string, b: string)
    requires Leq(a, b) && Leq(b, a)
    ensures a == b
  {
    if a != "" {
      LeqAntisymmetric(a[1..], b[1..]);
      assert a == [a[0]] + a[1..] && b == [b[0]] + b[1..];
    }
  }

  lemma {:induction false} LeqTransitive(a: string, b: string, c: string)
    requires Leq(a, b) && Leq(b, c)
    ensures Leq(a, c)
  {
    if a != "" && a[0] == b[0] == c[0] {
      LeqTransitive(a[1..], b[1..], c[1..]);
    }
  }

  // The order is decided by the first character in which two names differ, the smaller first ...
  lemma {:induction false} FirstDifferenceDecides(a: string, b: string, p: nat)
    requires p < |a| && p < |b| && a[..p] == b[..p] && a[p] != b[p]
    ensures Leq(a, b) <==> a[p] < b[p]
  {
    if p > 0 {
      assert a[..p][0] == b[..p][0];
      assert a[1..][..p - 1] == a[..p][1..] && b[1..][..p - 1] == b[..p][1..];
      FirstDifferenceDecides(a[1..], b[1..], p - 1);
    }
  }

  // ... and a name comes before a longer one it begins.
  lemma {:induction false} PrefixComesFirst(a: string, b: string)
    requires |a| < |b| && b[..|a|] == a
    ensures Leq(a, b) && !Leq(b, a)
  {
    if a != "" {
      assert b[..|a|][0] == a[0];
      assert b[1..][..|a| - 1] == b[..|a|][1..] == a[1..];
      PrefixComesFirst(a[1..], b[1..]);
    }
  }

  predicate Sorted(names: seq<string>) {
    forall i, j :: 0 <= i < j < |names| ==> Leq(names[i], names[j])
  }

  predicate IsUpMigration(e: DirEntry) {
    !e.isDir && Text.HasSuffix(e.name, ".up.sql")
  }

  // How often a name is listed as an up migration.
  function Listed(entries: seq<DirEntry>): multiset<string> {
    if entries == [] then multiset{}
    else
      var e := entries[|entries| - 1];
      Listed(entries[..|entries| - 1]) + if IsUpMigration(e) then multiset{e.name} else multiset{}
  }

  // Puts a name in its place.
  function Insert(sorted: seq<string>, name: string): seq<string> {
    if sorted == [] || Leq(name, sorted[0]) then [name] + sorted
    else [sorted[0]] + Insert(sorted[1..], name)
  }

  // The library sort.
  function SortStrings(names: seq<string>): seq<string> {
    if names == [] then [] else Insert(SortStrings(names[..|names| - 1]), names[|names| - 1])
  }

  lemma {:induction false} InsertSorts(sorted: seq<string>, name: string)
    requires Sorted(sorted)
    ensures Sorted(Insert(sorted, name)) && multiset(Insert(sorted, name)) == multiset(sorted) + multiset{name}
  {
    if sorted == [] || Leq(name, sorted[0]) {
      InsertFirst(sorted, name);
    } else {
      InsertSorts(sorted[1..], name);
      InsertLater(sorted, name, Insert(sorted[1..], name));
    }
  }

  lemma {:induction false} SortStringsSorts(names: seq<string>)
    ensures Sorted(SortStrings(names)) && multiset(SortStrings(names)) == multiset(names)
  {
    if names != [] {
      var n := |names| - 1;
      hide Insert, Sorted;
      SortStringsSorts(names[..n]);
      InsertSorts(SortStrings(names[..n]), names[n]);
      assert names == names[..n] + [names[n]];
    }
  }

  lemma InsertFirst(sorted: seq<string>, name: string)
    requires Sorted(sorted) && (sorted == [] || Leq(name, sorted[0]))
    ensures Sorted([name] + sorted)
  {
    forall i | 0 <= i < |sorted|
      ensures Leq(name, sorted[i])
    {
      if i > 0 {
        LeqTransitive(name, sorted[0], sorted[i]);
      }
    }
  }

  lemma InsertLater(sorted: seq<string>, name: string, rest: seq<string>)
    requires Sorted(sorted) && sorted != [] && !Leq(name, sorted[0])
    requires Sorted(rest) && multiset(rest) == multiset(sorted[1..]) + multiset{name}
    ensures Sorted([sorted[0]] + rest)
    ensures multiset([sorted[0]] + rest) == multiset(sorted) + multiset{name}
  {
    LeqTotal(name, sorted[0]);
    forall i | 0 <= i < |rest|
      ensures Leq(sorted[0], rest[i])
    {
      assert rest[i] in multiset(rest);
      if rest[i] != name {
        assert rest[i] in multiset(sorted[1..]);
        var j :| 0 <= j < |sorted[1..]| && sorted[1..][j] == rest[i];
        assert sorted[j + 1] == rest[i];
      }
    }
    assert sorted == [sorted[0]] + sorted[1..];
  }

  // Ascending: where two names first differ the earlier one has the smaller character, and no name
  // comes after a longer one that it begins.
  ghost predicate ByCharacters(names: seq<string>) {
    && (forall i, j, p ::
          && 0 <= i < j < |names| && 0 <= p < |names[i]| && p < |names[j]|
          && names[i][..p] == names[j][..p] && names[i][p] != names[j][p]
          ==> names[i][p] < names[j][p])
    && (forall i, j :: 0 <= i < j < |names| && |names[j]| < |names[i]| ==> names[i][..|names[j]|] != names[j])
  }

  // Exactly the files whose names end in ".up.sql", as often as they are listed.
  ghost predicate ExactlyUpFiles(names: seq<string>, entries: seq<DirEntry>) {
    forall name ::
      multiset(names)[name] == if |name| >= 7 && name[|name| - 7..] == ".up.sql"
                               then multiset(entries)[DirEntry(name, false)] else 0
  }

  // Collects the up migrations of a directory and sorts them.
  method FindUpMigrations(entries: seq<DirEntry>) returns (files: seq<string>)
    ensures Sorted(files) && multiset(files) == Listed(entries)
    ensures ExactlyUpFiles(files, entries) && ByCharacters(files)
  {
    hide Sorted, ByCharacters, ExactlyUpFiles;
    files := [];
    for i := 0 to |entries|
      invariant multiset(files) == Listed(entries[..i])
    {
      assert entries[..i + 1][..i] == entries[..i];
      if IsUpMigration(entries[i]) {
        files := files + [entries[i].name];
      }
    }
    assert entries[..|entries|] == entries;
    SortStringsSorts(files);
    files := SortStrings(files);
    SortedByCharacters(files);
    ListedAreUpFiles(files, entries);
  }

  lemma ListedAreUpFiles(files: seq<string>, entries: seq<DirEntry>)
    requires multiset(files) == Listed(entries)
    ensures ExactlyUpFiles(files, entries)
  {
    forall name
      ensures multiset(files)[name] == if |name| >= 7 && name[|name| - 7..] == ".up.sql"
                                       then multiset(entries)[DirEntry(name, false)] else 0
    {
      ListedOnce(entries, name);
    }
  }

  lemma SortedByCharacters(files: seq<string>)
    requires Sorted(files)
    ensures ByCharacters(files)
  {
    hide Leq;
    forall i, j, p | && 0 <= i < j < |files| && 0 <= p < |files[i]| && p < |files[j]|
                     && files[i][..p] == files[j][..p] && files[i][p] != files[j][p]
      ensures files[i][p] < files[j][p]
    {
      FirstDifferenceDecides(files[i], files[j], p);
    }
    forall i, j | 0 <= i < j < |files| && |files[j]| < |files[i]|
      ensures files[i][..|files[j]|] != files[j]
    {
      if files[i][..|files[j]|] == files[j] {
        PrefixComesFirst(files[j], files[i]);
        assert false;
      }
    }
  }

  // The sorted list is determined by what the directory holds, not by the order it is read in.
  lemma {:induction false} SortedIsUnique(a: seq<string>, b: seq<string>)
    requires Sorted(a) && Sorted(b) && multiset(a) == multiset(b)
    ensures a == b
  {
    hide Leq, Sorted;
    assert |multiset(a)| == |a| && |multiset(b)| == |b|;
    if a != [] {
      SameLast(a, b);
      WithoutLast(a);
      WithoutLast(b);
      SortedIsUnique(a[..|a| - 1], b[..|b| - 1]);
    }
  }

  lemma SameLast(a: seq<string>, b: seq<string>)
    requires Sorted(a) && Sorted(b) && a != [] && |a| == |b| && multiset(a) == multiset(b)
    ensures a[|a| - 1] == b[|b| - 1] && Sorted(a[..|a| - 1]) && Sorted(b[..|b| - 1])
  {
    hide Leq;
    LastIsLargest(a, b);
    LastIsLargest(b, a);
    LeqAntisymmetric(a[|a| - 1], b[|b| - 1]);
  }

  lemma WithoutLast(a: seq<string>)
    requires a != []
    ensures a == a[..|a| - 1] + [a[|a| - 1]]
    ensures multiset(a[..|a| - 1]) == multiset(a) - multiset{a[|a| - 1]}
  {
    assert a == a[..|a| - 1] + [a[|a| - 1]];
  }

  lemma LastIsLargest(a: seq<string>, b: seq<string>)
    requires Sorted(b) && a != [] && |a| == |b| && multiset(a) == multiset(b)
    ensures Leq(a[|a| - 1], b[|b| - 1])
  {
    var x := a[|a| - 1];
    assert x in multiset(b);
    var i :| 0 <= i < |b| && b[i] == x;
    LeqTotal(x, x);
  }

  // The up migrations in the order they are listed.
  function UpNames(entries: seq<DirEntry>): seq<string> {
    if entries == [] then []
    else
      var e := entries[|entries| - 1];
      UpNames(entries[..|entries| - 1]) + if IsUpMigration(e) then [e.name] else []
  }

  lemma {:induction false} SortedUpNames(entries: seq<DirEntry>)
    ensures Sorted(SortStrings(UpNames(entries))) && multiset(SortStrings(UpNames(entries))) == Listed(entries)
    ensures multiset(UpNames(entries)) == Listed(entries)
  {
    SortStringsSorts(UpNames(entries));
    if entries != [] {
      SortedUpNames(entries[..|entries| - 1]);
    }
  }

  // The migration files of a directory, in the order they are applied.
  function Migrations(entries: seq<DirEntry>, content: string -> string): seq<File> {
    var names := SortStrings(UpNames(entries));
    seq(|names|, i requires 0 <= i < |names| => File(names[i], content(names[i])))
  }

  const SAMPLE: seq<DirEntry> :=
    [DirEntry("000002_add_cols.up.sql", false), DirEntry("000001_init.down.sql", false),
     DirEntry("old.up.sql", true), DirEntry("000001_init.up.sql", false)]

  // Two up migrations listed in the wrong order, beside a down migration and a directory: they are
  // applied in order, each version the name of its file.
  lemma SampleDirectory(content: string -> string)
    ensures var first, second := "000001_init.up.sql", "000002_add_cols.up.sql";
            Migrations(SAMPLE, content) == [File(first, content(first)), File(second, content(second))]
  {
    hide Leq, UpNames;
    var first, second := "000001_init.up.sql", "000002_add_cols.up.sql";
    SampleNames();
    FirstDifferenceDecides(first, second, 5);
    FirstDifferenceDecides(second, first, 5);
    SortTwo(first, second);
  }

  lemma SortTwo(first: string, second: string)
    requires Leq(first, second) && !Leq(second, first)
    ensures SortStrings([second, first]) == [first, second]
  {
    hide Leq;
    assert [second, first][..1] == [second] && [second][..0] == [];
    assert SortStrings([]) == [] && Insert([], second) == [second];
    assert SortStrings([second]) == [second];
  }

  lemma UpNamesAppend(entries: seq<DirEntry>, e: DirEntry)
    ensures UpNames(entries + [e]) == UpNames(entries) + if IsUpMigration(e) then [e.name] else []
  {
    assert (entries + [e])[..|entries|] == entries;
  }

  lemma SampleNames()
    ensures UpNames(SAMPLE) == ["000002_add_cols.up.sql", "000001_init.up.sql"]
  {
    hide UpNames, IsUpMigration;
    SampleSuffixes();
    OuterUpNames(SAMPLE[0], SAMPLE[1], SAMPLE[2], SAMPLE[3]);
    assert SAMPLE == [SAMPLE[0], SAMPLE[1], SAMPLE[2], SAMPLE[3]];
  }

  lemma SampleSuffixes()
    ensures IsUpMigration(SAMPLE[0]) && !IsUpMigration(SAMPLE[1])
    ensures !IsUpMigration(SAMPLE[2]) && IsUpMigration(SAMPLE[3])
  {
    assert SAMPLE[1].name[13..][0] == 'o' && ".up.sql"[0] == '.';
  }

  lemma OuterUpNames(a: DirEntry, b: DirEntry, c: DirEntry, d: DirEntry)
    requires IsUpMigration(a) && !IsUpMigration(b) && !IsUpMigration(c) && IsUpMigration(d)
    ensures UpNames([a, b, c, d]) == [a.name, d.name]
  {
    hide UpNames, IsUpMigration;
    NoUpNames();
    UpNamesAppend([], a);
    UpNamesAppend([a], b);
    UpNamesAppend([a, b], c);
    UpNamesAppend([a, b, c], d);
    assert [] + [a] == [a] && [a] + [b] == [a, b] && [a, b] + [c] == [a, b, c] && [a, b, c] + [d] == [a, b, c, d];
  }

  lemma NoUpNames()
    ensures UpNames([]) == []
  {
  }

  // A directory holds no name twice.
  predicate DistinctNames(entries: seq<DirEntry>) {
    forall i, j :: 0 <= i < j < |entries| ==> entries[i].name != entries[j].name
  }

  predicate DistinctVersions(files: seq<File>) {
    forall i, j :: 0 <= i < j < |files| ==> files[i].version != files[j].version
  }

  lemma {:induction false} ListedOnce(entries: seq<DirEntry>, name: string)
    ensures Listed(entries)[name]
         == if Text.HasSuffix(name, ".up.sql") then multiset(entries)[DirEntry(name, false)] else 0
  {
    if entries != [] {
      hide Text.HasSuffix;
      ListedOnce(entries[..|entries| - 1], name);
      assert entries == entries[..|entries| - 1] + [entries[|entries| - 1]];
    }
  }

  // However the directory is listed, the migrations are the same.
  lemma ListingOrderIsIrrelevant(a: seq<DirEntry>, b: seq<DirEntry>, content: string -> string)
    requires multiset(a) == multiset(b)
    ensures Migrations(a, content) == Migrations(b, content)
  {
    forall name
      ensures Listed(a)[name] == Listed(b)[name]
    {
      ListedOnce(a, name);
      ListedOnce(b, name);
    }
    assert Listed(a) == Listed(b);
    SortedUpNames(a);
    SortedUpNames(b);
    SortedIsUnique(SortStrings(UpNames(a)), SortStrings(UpNames(b)));
  }

  lemma {:induction false} NameOnce(entries: seq<DirEntry>, e: DirEntry)
    requires DistinctNames(entries)
    ensures multiset(entries)[e] <= 1
  {
    if entries != [] {
      var n := |entries| - 1;
      NameOnce(entries[..n], e);
      assert entries == entries[..n] + [entries[n]];
      if entries[n] == e {
        assert e !in entries[..n];
      }
    }
  }

  lemma {:induction false} OnceEachIsDistinct(names: seq<string>)
    requires forall name :: multiset(names)[name] <= 1
    ensures forall i, j :: 0 <= i < j < |names| ==> names[i] != names[j]
  {
    if names != [] {
      var n := |names| - 1;
      var before := names[..n];
      assert names == before + [names[n]];
      assert forall name :: multiset(before)[name] <= multiset(names)[name];
      OnceEachIsDistinct(before);
      assert names[n] !in multiset(before);
      assert forall i :: 0 <= i < n ==> before[i] == names[i] && before[i] in multiset(before);
    }
  }

  // Their versions are distinct, as the names are.
  lemma MigrationsDistinct(entries: seq<DirEntry>, content: string -> string)
    requires DistinctNames(entries)
    ensures DistinctVersions(Migrations(entries, content))
  {
    var names := SortStrings(UpNames(entries));
    SortedUpNames(entries);
    forall name
      ensures multiset(names)[name] <= 1
    {
      ListedOnce(entries, name);
      NameOnce(entries, DirEntry(name, false));
    }
    OnceEachIsDistinct(names);
  }

  // ---------------------------------------------------------------------------------------
  // The database
  // ---------------------------------------------------------------------------------------

  // Committed state: the recorded versions, and the contents executed, both in order.
  datatype DB = DB(recorded: seq<string>, executed: seq<string>)

  // Where the handling of one file fails, if it does. A commit can fail after it took effect.
  datatype Fault =
    | NoFault
    | QueryFails
    | ReadFails
    | BeginFails
    | ExecFails
    | RecordFails
    | CommitFails(tookEffect: bool)

  class Database {
    var state: DB

    constructor (state: DB)
      ensures this.state == state
    {
      this.state := state;
    }
  }

  // A transaction works on its own copy; only a commit that takes effect installs it.
  class Transaction {
    const db: Database
    var pending: DB

    constructor (db: Database)
      ensures this.db == db && pending == db.state
    {
      this.db := db;
      pending := db.state;
    }

    method Exec(content: string, fails: bool) returns (ok: bool)
      modifies this
      ensures ok == !fails
      ensures pending == if ok then old(pending).(executed := old(pending).executed + [content]) else old(pending)
    {
      if !fails {
        pending := pending.(executed := pending.executed + [content]);
      }
      return !fails;
    }

    method Record(version: string, fails: bool) returns (ok: bool)
      modifies this
      ensures ok == !fails
      ensures pending == if ok then old(pending).(recorded := old(pending).recorded + [version]) else old(pending)
    {
      if !fails {
        pending := pending.(recorded := pending.recorded + [version]);
      }
      return !fails;
    }

    method Commit(fault: Fault) returns (ok: bool)
      modifies db
      ensures ok == !fault.CommitFails?
      ensures db.state == if fault == CommitFails(false) then old(db.state) else pending
    {
      if fault != CommitFails(false) {
        db.state := pending;
      }
      return !fault.CommitFails?;
    }
  }

  function Applied(d: DB, f: File): DB {
    DB(d.recorded + [f.version], d.executed + [f.content])
  }

  // One file: skipped when recorded, else executed and recorded together or not at all.
  function StepState(d: DB, f: File, fault: Fault): DB {
    if f.version in d.recorded then d
    else if fault == NoFault || fault == CommitFails(true) then Applied(d, f)
    else d
  }

  predicate StepOk(d: DB, f: File, fault: Fault) {
    if f.version in d.recorded then fault != QueryFails else fault == NoFault
  }

  // The outcome of a run over the first `n` files: it stops at the first that fails.
  datatype Outcome = Outcome(state: DB, ok: bool)

  function After(d: DB, files: seq<File>, faults: nat -> Fault, n: nat): Outcome
    requires n <= |files|
  {
    if n == 0 then Outcome(d, true)
    else
      var before := After(d, files, faults, n - 1);
      if !before.ok then before
      else Outcome(StepState(before.state, files[n - 1], faults(n - 1)),
                   StepOk(before.state, files[n - 1], faults(n - 1)))
  }

  // One file of the loop.
  method ApplyFile(db: Database, file: File, fault: Fault) returns (ok: bool)
    modifies db
    ensures ok == StepOk(old(db.state), file, fault) && db.state == StepState(old(db.state), file, fault)
    ensures file.version in old(db.state.recorded) ==> db.state == old(db.state) && (ok <==> fault != QueryFails)
    ensures file.version !in old(db.state.recorded) ==>
              && (ok <==> fault == NoFault)
              && db.state == if fault in {NoFault, CommitFails(true)}
                             then DB(old(db.state.recorded) + [file.version], old(db.state.executed) + [file.content])
                             else old(db.state)
  {
    if fault == QueryFails {
      return false;
    }
    if file.version in db.state.recorded {
      return true;
    }
    if fault == ReadFails || fault == BeginFails {
      return false;
    }
    var tx := new Transaction(db);
    ok := tx.Exec(file.content, fault == ExecFails);
    if !ok {
      return false;
    }
    ok := tx.Record(file.version, fault == RecordFails);
    if !ok {
      return false;
    }
    ok := tx.Commit(fault);
  }

  // One start of the gateway: what the directory listing gives, if it can be read, whether creating
  // the tracker table fails, and the faults per file.
  datatype Attempt = Attempt(dir: Option<seq<DirEntry>>, trackerFails: bool, faults: nat -> Fault)

  // What one start does to the database. `content` is what the directory's files contain.
  function Once(d: DB, content: string -> string, a: Attempt): Outcome {
    if a.trackerFails || a.dir.None? then Outcome(d, false)
    else
      var files := Migrations(a.dir.value, content);
      After(d, files, a.faults, |files|)
  }

  method RunMigrations(db: Database, content: string -> string, a: Attempt) returns (ok: bool)
    modifies db
    ensures Outcome(db.state, ok) == Once(old(db.state), content, a)
  {
    if a.trackerFails || a.dir.None? {
      return false;
    }
    var names := FindUpMigrations(a.dir.value);
    SortedUpNames(a.dir.value);
    SortedIsUnique(names, SortStrings(UpNames(a.dir.value)));
    ghost var files := Migrations(a.dir.value, content);
    for i := 0 to |names|
      invariant After(old(db.state), files, a.faults, i) == Outcome(db.state, true)
    {
      var done := ApplyFile(db, File(names[i], content(names[i])), a.faults(i));
      if !done {
        StopsAt(old(db.state), files, a.faults, i + 1, |files|);
        return false;
      }
    }
    return true;
  }

  lemma {:induction false} StopsAt(d: DB, files: seq<File>, faults: nat -> Fault, i: nat, n: nat)
    requires i <= n <= |files| && !After(d, files, faults, i).ok
    ensures After(d, files, faults, n) == After(d, files, faults, i)
  {
    if i < n {
      StopsAt(d, files, faults, i, n - 1);
    }
  }

  // ---------------------------------------------------------------------------------------
  // Resuming
  // ---------------------------------------------------------------------------------------

  function Versions(files: seq<File>): seq<string> {
    seq(|files|, i requires 0 <= i < |files| => files[i].version)
  }

  function ContentsOf(files: seq<File>): seq<string> {
    seq(|files|, i requires 0 <= i < |files| => files[i].content)
  }

  // Exactly the first `k` files are recorded, and exactly they have been executed, once and in order.
  predicate AtPrefix(d: DB, files: seq<File>, k: nat) {
    k <= |files| && d.recorded == Versions(files[..k]) && d.executed == ContentsOf(files[..k])
  }

  lemma PrefixMembers(files: seq<File>, k: nat, i: nat)
    requires DistinctVersions(files) && k <= |files| && i < |files|
    ensures files[i].version in Versions(files[..k]) <==> i < k
  {
    if i < k {
      assert Versions(files[..k])[i] == files[i].version;
    }
  }

  // A run that starts at a recorded prefix ends at one that is no shorter, wherever it fails.
  lemma {:induction false} PrefixIsKept(d: DB, files: seq<File>, faults: nat -> Fault, n: nat, k: nat) returns (k': nat)
    requires DistinctVersions(files) && AtPrefix(d, files, k) && n <= |files|
    ensures k <= k' && AtPrefix(After(d, files, faults, n).state, files, k')
    ensures After(d, files, faults, n).ok ==> k' == if n <= k then k else n
    ensures k == |files| ==> After(d, files, faults, n).state == d
  {
    if n == 0 {
      k' := k;
    } else {
      k' := PrefixIsKept(d, files, faults, n - 1, k);
      var before := After(d, files, faults, n - 1);
      if before.ok {
        PrefixMembers(files, k', n - 1);
        var stepped := StepState(before.state, files[n - 1], faults(n - 1));
        if stepped != before.state {
          assert Versions(files[..n]) == Versions(files[..n - 1]) + [files[n - 1].version];
          assert ContentsOf(files[..n]) == ContentsOf(files[..n - 1]) + [files[n - 1].content];
          k' := n;
        }
      }
    }
  }

  function Repeatedly(d: DB, content: string -> string, attempts: seq<Attempt>): DB {
    if attempts == [] then d
    else Once(Repeatedly(d, content, attempts[..|attempts| - 1]), content, attempts[|attempts| - 1]).state
  }

  // Every start that can read the directory finds the same entries, in whatever order.
  predicate Reads(a: Attempt, entries: seq<DirEntry>) {
    a.dir.Some? ==> multiset(a.dir.value) == multiset(entries)
  }

  predicate AllRead(attempts: seq<Attempt>, entries: seq<DirEntry>) {
    forall i :: 0 <= i < |attempts| ==> Reads(attempts[i], entries)
  }

  lemma OnceKeepsPrefix(d: DB, entries: seq<DirEntry>, content: string -> string, files: seq<File>, a: Attempt, k: nat)
    returns (k': nat)
    requires DistinctNames(entries) && Reads(a, entries) && files == Migrations(entries, content)
    requires AtPrefix(d, files, k)
    ensures k <= k' && AtPrefix(Once(d, content, a).state, files, k')
    ensures Once(d, content, a).ok ==> k' == |files|
    ensures k == |files| ==> Once(d, content, a).state == d
  {
    hide Migrations, AtPrefix;
    k' := k;
    if !a.trackerFails && a.dir.Some? {
      MigrationsDistinct(entries, content);
      ListingOrderIsIrrelevant(a.dir.value, entries, content);
      k' := PrefixIsKept(d, files, a.faults, |files|, k);
      PrefixFits(d, files, k);
    }
  }

  lemma PrefixFits(d: DB, files: seq<File>, k: nat)
    requires AtPrefix(d, files, k)
    ensures k <= |files|
  {
  }

  // Over any number of starts on one directory, failing at arbitrary points, the recorded versions
  // are always a prefix of its sorted migrations and exactly that prefix has been executed, each
  // file once, in order.
  lemma {:induction false} MigrationsResume(d: DB, entries: seq<DirEntry>, content: string -> string,
                                            files: seq<File>, attempts: seq<Attempt>, k: nat)
    returns (k': nat)
    requires DistinctNames(entries) && AllRead(attempts, entries) && files == Migrations(entries, content)
    requires AtPrefix(d, files, k)
    ensures k <= k' && AtPrefix(Repeatedly(d, content, attempts), files, k')
  {
    if attempts == [] {
      k' := k;
    } else {
      hide Migrations, AtPrefix, Once;
      var n := |attempts| - 1;
      k' := MigrationsResume(d, entries, content, files, attempts[..n], k);
      k' := OnceKeepsPrefix(Repeatedly(d, content, attempts[..n]), entries, content, files, attempts[n], k');
    }
  }

  // Whatever came before, a start that reports success has applied everything, and no later start
  // on that directory changes anything.
  lemma SuccessIsFinal(d: DB, entries: seq<DirEntry>, content: string -> string, files: seq<File>,
                       attempts: seq<Attempt>, k: nat, last: Attempt, more: Attempt)
    requires DistinctNames(entries) && AllRead(attempts, entries) && Reads(last, entries) && Reads(more, entries)
    requires files == Migrations(entries, content) && AtPrefix(d, files, k)
    requires Once(Repeatedly(d, content, attempts), content, last).ok
    ensures var done := Once(Repeatedly(d, content, attempts), content, last).state;
            AtPrefix(done, files, |files|) && Once(done, content, more).state == done
  {
    hide Migrations, AtPrefix, Once;
    var before := Repeatedly(d, content, attempts);
    var j := MigrationsResume(d, entries, content, files, attempts, k);
    var j' := OnceKeepsPrefix(before, entries, content, files, last, j);
    var _ := OnceKeepsPrefix(Once(before, content, last).state, entries, content, files, more, |files|);
  }

  // Without faults a run succeeds, from any state.
  lemma {:induction false} FaultlessRunSucceeds(d: DB, files: seq<File>, faults: nat -> Fault, n: nat)
    requires n <= |files| && forall i :: 0 <= i < n ==> faults(i) == NoFault
    ensures After(d, files, faults, n).ok
  {
    if n > 0 {
      FaultlessRunSucceeds(d, files, faults, n - 1);
    }
  }

  // Even from a state that is no prefix, such as after a file was added between applied ones,
  // nothing recorded is executed again: a run only appends files that were missing.
  lemma {:induction false} OnlyMissingAreExecuted(d: DB, files: seq<File>, faults: nat -> Fault, n: nat)
    returns (ran: seq<File>)
    requires DistinctVersions(files) && n <= |files|
    ensures After(d, files, faults, n).state == DB(d.recorded + Versions(ran), d.executed + ContentsOf(ran))
    ensures DistinctVersions(ran) && forall f :: f in ran ==> f in files[..n] && f.version !in d.recorded
    ensures After(d, files, faults, n).ok ==> forall f :: f in files[..n] && f.version !in d.recorded ==> f in ran
  {
    if n == 0 {
      ran := [];
      assert d == DB(d.recorded + Versions([]), d.executed + ContentsOf([]));
    } else {
      var f := files[n - 1];
      ran := OnlyMissingAreExecuted(d, files, faults, n - 1);
      assert files[..n] == files[..n - 1] + [f];
      var before := After(d, files, faults, n - 1);
      if before.ok && f.version !in before.state.recorded && StepState(before.state, f, faults(n - 1)) != before.state {
        assert Versions(ran + [f]) == Versions(ran) + [f.version];
        assert ContentsOf(ran + [f]) == ContentsOf(ran) + [f.content];
        assert forall i :: 0 <= i < |ran| ==> Versions(ran)[i] == ran[i].version;
        ran := ran + [f];
      }
    }
  }
}
