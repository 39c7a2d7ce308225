/** The migration runner: embedded scripts, a table of recorded versions, and a schema of any type. */
module Migrate {
  import opened Text
  import opened Seqs

  // ------------------------------------------------------------------ loading

  datatype Suffix = UpSql | DownSql | OtherSuffix

  /** A directory entry: its parsed version number, if it has one, its suffix and its content. */
  datatype File = File(isDir: bool, readable: bool, version: Option<int>, suffix: Suffix, body: string)

  datatype Migration = Migration(version: int, up: string, down: string)

  predicate Loads(f: File) {
    f.isDir || (f.readable && f.version.Some?)
  }

  function AddFile(m: map<int, Migration>, f: File): map<int, Migration>
    requires Loads(f)
  {
    if f.isDir then m
    else
      var v := f.version.value;
      var known := if v in m then m[v] else Migration(v, "", "");
      m[v := match f.suffix
             case UpSql => known.(up := f.body)
             case DownSql => known.(down := f.body)
             case OtherSuffix => known]
  }

  function ByVersion(files: seq<File>): map<int, Migration>
    requires forall f :: f in files ==> Loads(f)
  {
    if files == [] then map[]
    else
      var n := |files| - 1;
      assert files[n] in files;
      AddFile(ByVersion(files[..n]), files[n])
  }

  /** The content of the last file of this version and suffix; "" when there is none. */
  function LastBody(files: seq<File>, version: int, suffix: Suffix): string {
    if files == [] then ""
    else
      var f := files[|files| - 1];
      if !f.isDir && f.version == Some(version) && f.suffix == suffix then f.body
      else LastBody(files[..|files| - 1], version, suffix)
  }

  predicate Ascending(ms: seq<Migration>) {
    forall i, j :: 0 <= i < j < |ms| ==> ms[i].version < ms[j].version
  }

  ghost predicate HasFile(files: seq<File>, version: int) {
    exists f :: f in files && !f.isDir && f.version == Some(version)
  }

  lemma {:induction false} ByVersionMeaning(files: seq<File>, version: int)
    requires forall f :: f in files ==> Loads(f)
    ensures version in ByVersion(files) <==> HasFile(files, version)
    ensures version in ByVersion(files) ==>
              ByVersion(files)[version] ==
              Migration(version, LastBody(files, version, UpSql), LastBody(files, version, DownSql))
    ensures version !in ByVersion(files) ==>
              LastBody(files, version, UpSql) == "" && LastBody(files, version, DownSql) == ""
  {
    if files != [] {
      var n := |files| - 1;
      assert files == files[..n] + [files[n]];
      assert files[n] in files;
      ByVersionMeaning(files[..n], version);
    }
  }

  ghost predicate HasVersion(ms: seq<Migration>, version: int) {
    exists m :: m in ms && m.version == version
  }

  /** What the loaded list is: ascending, one migration for every version that occurs, each with the
      last up and down script of that version, and every up script non-empty. */
  ghost predicate IsLoaded(files: seq<File>, ms: seq<Migration>) {
    && Ascending(ms)
    && (forall v :: HasVersion(ms, v) <==> HasFile(files, v))
    && (forall m :: m in ms ==>
          m.up == LastBody(files, m.version, UpSql) != "" && m.down == LastBody(files, m.version, DownSql))
  }

  /** The embedded files cannot be loaded: one is unreadable or has no version, or a version lacks an up
      script. */
  ghost predicate Unloadable(files: seq<File>) {
    (exists f :: f in files && !Loads(f)) ||
    (exists f :: f in files && !f.isDir && f.version.Some? && LastBody(files, f.version.value, UpSql) == "")
  }

  /** Keeps a list sorted by version while adding to it. */
  function InsertByVersion(ms: seq<Migration>, m: Migration): (r: seq<Migration>)
    requires Ascending(ms) && forall x :: x in ms ==> x.version != m.version
    ensures Ascending(r) && forall x :: x in r <==> x in ms || x == m
  {
    if ms == [] then [m]
    else
      var last := ms[|ms| - 1];
      assert ms == ms[..|ms| - 1] + [last];
      if last.version < m.version then ms + [m]
      else
        var init := InsertByVersion(ms[..|ms| - 1], m);
        assert forall i :: 0 <= i < |init| ==> init[i] in init;
        init + [last]
  }

  method LoadMigrations(files: seq<File>) returns (r: Option<seq<Migration>>)
    ensures r.None? <==> Unloadable(files)
    ensures r.Some? ==> IsLoaded(files, r.value)
  {
    var byVersion: map<int, Migration> := map[];
    for i := 0 to |files|
      invariant forall f :: f in files[..i] ==> Loads(f)
      invariant byVersion == ByVersion(files[..i])
    {
      var f := files[i];
      assert files[..i + 1] == files[..i] + [f];
      if f.isDir { continue; }
      if !f.readable || f.version.None? {
        assert f in files && !Loads(f);
        return None;
      }
      var v := f.version.value;
      var m := if v in byVersion then byVersion[v] else Migration(v, "", "");
      match f.suffix {
        case UpSql => m := m.(up := f.body);
        case DownSql => m := m.(down := f.body);
        case OtherSuffix =>
      }
      byVersion := byVersion[v := m];
    }
    assert files[..|files|] == files;
    forall v { ByVersionMeaning(files, v); }
    var out: seq<Migration> := [];
    var left := byVersion.Keys;
    while left != {}
      invariant left <= byVersion.Keys && Ascending(out)
      invariant forall m :: m in out ==> m.version in byVersion.Keys - left && byVersion[m.version] == m && m.up != ""
      invariant forall v :: v in byVersion.Keys - left ==> byVersion[v] in out
      decreases |left|
    {
      Inhabited(left);
      var v: int :| v in left;
      left := left - {v};
      var m := byVersion[v];
      if m.up == "" {
        var f :| f in files && !f.isDir && f.version == Some(v);
        return None;
      }
      out := InsertByVersion(out, m);
    }
    forall v ensures HasVersion(out, v) <==> HasFile(files, v) {
      assert v in byVersion <==> HasFile(files, v);
      if v in byVersion { assert byVersion[v] in out; }
    }
    r := Some(out);
  }

  lemma FirstIsMember(ms: seq<Migration>)
    ensures ms != [] ==> exists m :: m in ms
  {
    if ms != [] { assert ms[0] in ms; }
  }

  lemma {:induction false} AscendingIsUnique(xs: seq<Migration>, ys: seq<Migration>)
    requires Ascending(xs) && Ascending(ys) && forall m :: m in xs <==> m in ys
    ensures xs == ys
  {
    if xs == [] {
      FirstIsMember(ys);
    } else {
      var n, k := |xs| - 1, |ys| - 1;
      assert xs[n] in ys && ys[k] in xs;
      assert xs[n] == ys[k];
      forall m ensures m in xs[..n] <==> m in ys[..k] {
        assert m in xs <==> m in xs[..n] || m == xs[n];
        assert m in ys <==> m in ys[..k] || m == ys[k];
        assert xs[n] !in xs[..n] && ys[k] !in ys[..k];
      }
      AscendingIsUnique(xs[..n], ys[..k]);
    }
  }

  lemma LoadedHolds(files: seq<File>, xs: seq<Migration>, ys: seq<Migration>, m: Migration)
    requires IsLoaded(files, xs) && IsLoaded(files, ys) && m in xs
    ensures m in ys
  {
    assert HasVersion(xs, m.version);
    assert HasFile(files, m.version);
    var m' :| m' in ys && m'.version == m.version;
    assert m' == m;
  }

  /** The files determine the list: every call on the same files works on the same migrations. */
  lemma LoadedIsUnique(files: seq<File>, xs: seq<Migration>, ys: seq<Migration>)
    requires IsLoaded(files, xs) && IsLoaded(files, ys)
    ensures xs == ys
  {
    forall m ensures m in xs <==> m in ys {
      if m in xs { LoadedHolds(files, xs, ys, m); }
      if m in ys { LoadedHolds(files, ys, xs, m); }
    }
    AscendingIsUnique(xs, ys);
  }

  lemma {:induction false} ListOf(m: map<int, Migration>, left: set<int>) returns (out: seq<Migration>)
    requires left <= m.Keys && forall v :: v in left ==> m[v].version == v
    ensures Ascending(out) && forall x :: x in out <==> x.version in left && m[x.version] == x
  {
    if left == {} {
      out := [];
    } else {
      Inhabited(left);
      var v: int :| v in left;
      var rest := ListOf(m, left - {v});
      out := InsertByVersion(rest, m[v]);
    }
  }

  /** Files that do not stop the loading do load. */
  lemma LoadedExists(files: seq<File>) returns (ms: seq<Migration>)
    requires !Unloadable(files)
    ensures IsLoaded(files, ms)
  {
    var m := ByVersion(files);
    forall v { ByVersionMeaning(files, v); }
    ms := ListOf(m, m.Keys);
    forall v ensures HasVersion(ms, v) <==> HasFile(files, v) {
      assert v in m <==> HasFile(files, v);
      if v in m { assert m[v] in ms; }
    }
  }

  // ------------------------------------------------------------- specification

  /** The recorded versions and the schema. What a script does to a schema is given by a function. */
  datatype Database<S> = Database(recorded: set<int>, schema: S)

  /** How one call fares: so many statements succeed and the next one fails; a commit that fails may or
      may not have taken effect. */
  datatype Luck = Luck(statements: nat, commitLands: bool)

  /** The last statement of a transaction, its commit. */
  function Commit<S>(before: Database<S>, after: Database<S>, luck: Luck): Database<S> {
    if luck.statements > 0 || luck.commitLands then after else before
  }

  function Use(luck: Luck, n: nat): Luck
    requires luck.statements >= n
  {
    luck.(statements := luck.statements - n)
  }

  function ApplyAll<S>(sql: (string, S) -> S, db: Database<S>, ms: seq<Migration>, luck: Luck): (Database<S>, bool)
    decreases |ms|
  {
    if ms == [] then (db, true)
    else if luck.statements == 0 then (db, false)                         // the look-up of the version
    else if ms[0].version in db.recorded then ApplyAll(sql, db, ms[1..], Use(luck, 1))
    else if luck.statements < 4 then (db, false)                          // begin, script, record
    else
      var db' := Commit(db, Database(db.recorded + {ms[0].version}, sql(ms[0].up, db.schema)), Use(luck, 4));
      if luck.statements == 4 then (db', false) else ApplyAll(sql, db', ms[1..], Use(luck, 5))
  }

  function Migrated<S>(sql: (string, S) -> S, db: Database<S>, ms: seq<Migration>, luck: Luck): (Database<S>, bool) {
    if luck.statements == 0 then (db, false) else ApplyAll(sql, db, ms, Use(luck, 1))
  }

  predicate IsHighest(vs: set<int>, v: int) {
    v in vs && forall u :: u in vs ==> u <= v
  }

  lemma {:induction false} HighestExists(vs: set<int>)
    requires vs != {}
    ensures exists v :: IsHighest(vs, v)
  {
    Inhabited(vs);
    var u: int :| u in vs;
    if vs == {u} {
      assert IsHighest(vs, u);
    } else {
      HighestExists(vs - {u});
      var v :| IsHighest(vs - {u}, v);
      var w := if u > v then u else v;
      forall x | x in vs ensures x <= w { assert x == u || x in vs - {u}; }
      assert IsHighest(vs, w);
    }
  }

  function Highest(vs: set<int>): (v: int)
    requires vs != {}
    ensures IsHighest(vs, v)
  {
    HighestExists(vs);
    var v :| IsHighest(vs, v);
    v
  }

  /** The down script of the first migration of this version; "" when there is none. */
  function DownOf(ms: seq<Migration>, version: int): string {
    if ms == [] then "" else if ms[0].version == version then ms[0].down else DownOf(ms[1..], version)
  }

  function Reverted<S>(sql: (string, S) -> S, db: Database<S>, ms: seq<Migration>, luck: Luck): (Database<S>, bool) {
    if luck.statements < 2 then (db, false)                               // ensure the table, find the version
    else if db.recorded == {} then (db, true)
    else
      var v := Highest(db.recorded);
      var down := DownOf(ms, v);
      if down == "" || luck.statements < 5 then (db, false)               // begin, script, delete
      else
        (Commit(db, Database(db.recorded - {v}, sql(down, db.schema)), Use(luck, 5)), luck.statements > 5)
  }

  /** A call of Migrate or MigrateDown, and how it fares. */
  datatype Call = MigrateCall(luck: Luck) | MigrateDownCall(luck: Luck)

  /** What a call on a database may leave behind and report, given the embedded files. */
  ghost predicate Ran<S>(sql: (string, S) -> S, files: seq<File>, db: Database<S>, c: Call, db': Database<S>,
                         ok: bool)
  {
    match c
    case MigrateCall(luck) =>
      if luck.statements == 0 || Unloadable(files) then db' == db && !ok
      else exists ms :: IsLoaded(files, ms) && (db', ok) == Migrated(sql, db, ms, luck)
    case MigrateDownCall(luck) =>
      if luck.statements < 2 then db' == db && !ok
      else if db.recorded == {} then db' == db && ok
      else if Unloadable(files) then db' == db && !ok
      else exists ms :: IsLoaded(files, ms) && (db', ok) == Reverted(sql, db, ms, luck)
  }

  // -------------------------------------------------------------------- classes

  method FindDown(ms: seq<Migration>, version: int) returns (down: string)
    ensures down == DownOf(ms, version)
  {
    down := "";
    assert ms[0..] == ms;
    for i := 0 to |ms|
      invariant down == "" && DownOf(ms, version) == DownOf(ms[i..], version)
    {
      assert ms[i..][1..] == ms[i + 1..];
      if ms[i].version == version {
        down := ms[i].down;
        break;
      }
    }
  }

  /** A connection: each statement draws on the luck of the call. */
  class Connection<S> {
    const sql: (string, S) -> S
    var recorded: set<int>
    var schema: S
    var luck: Luck

    function Value(): Database<S>
      reads this
    {
      Database(recorded, schema)
    }

    constructor (sql: (string, S) -> S, schema: S, luck: Luck)
      ensures this.sql == sql && Value() == Database({}, schema) && this.luck == luck
    {
      this.sql, this.schema, this.luck, recorded := sql, schema, luck, {};
    }

    method Statement() returns (ok: bool)
      modifies this`luck
      ensures ok <==> old(luck).statements > 0
      ensures luck == if ok then Use(old(luck), 1) else old(luck)
    {
      ok := luck.statements > 0;
      if ok { luck := luck.(statements := luck.statements - 1); }
    }

    /** Commits a transaction that would leave this database behind. */
    method CommitTo(tx: Database<S>) returns (ok: bool)
      modifies this
      ensures Value() == Commit(old(Value()), tx, old(luck))
      ensures ok <==> old(luck).statements > 0
      ensures luck == if ok then Use(old(luck), 1) else old(luck)
    {
      ok := Statement();
      if ok || luck.commitLands {
        recorded, schema := tx.recorded, tx.schema;
      }
    }

    /** The loop of Migrate. */
    method ApplyPending(ms: seq<Migration>) returns (ok: bool)
      modifies this
      ensures (Value(), ok) == ApplyAll(sql, old(Value()), ms, old(luck))
    {
      assert ms[0..] == ms;
      for i := 0 to |ms|
        invariant ApplyAll(sql, old(Value()), ms, old(luck)) == ApplyAll(sql, Value(), ms[i..], luck)
      {
        var m := ms[i];
        assert ms[i..][0] == m && ms[i..][1..] == ms[i + 1..];
        ok := Statement();
        if !ok { return; }
        if m.version in recorded { continue; }
        ok := Statement();
        if !ok { return; }
        ok := Statement();
        if !ok { return; }
        var tx := Database(recorded, sql(m.up, schema));
        ok := Statement();
        if !ok { return; }
        tx := tx.(recorded := tx.recorded + {m.version});
        ok := CommitTo(tx);
        if !ok { return; }
      }
      ok := true;
    }

    method Migrate(files: seq<File>) returns (ok: bool)
      modifies this
      ensures Ran(sql, files, old(Value()), MigrateCall(old(luck)), Value(), ok)
    {
      ghost var db0, luck0 := Value(), luck;
      ok := Statement();
      if !ok { return; }
      var loaded := LoadMigrations(files);
      if loaded.None? { return false; }
      ok := ApplyPending(loaded.value);
      assert IsLoaded(files, loaded.value) && (Value(), ok) == Migrated(sql, db0, loaded.value, luck0);
    }

    /** The transaction of MigrateDown. */
    method Revert(version: int, down: string) returns (ok: bool)
      modifies this
      ensures ok <==> old(luck).statements > 3
      ensures Value() == if old(luck).statements < 3 then old(Value())
                         else Commit(old(Value()), Database(old(recorded) - {version}, sql(down, old(schema))),
                                     Use(old(luck), 3))
    {
      ok := Statement();
      if !ok { return; }
      ok := Statement();
      if !ok { return; }
      var tx := Database(recorded, sql(down, schema));
      ok := Statement();
      if !ok { return; }
      ok := CommitTo(tx.(recorded := tx.recorded - {version}));
    }

    method MigrateDown(files: seq<File>) returns (ok: bool)
      modifies this
      ensures Ran(sql, files, old(Value()), MigrateDownCall(old(luck)), Value(), ok)
    {
      ghost var db0, luck0 := Value(), luck;
      ok := Statement();
      if !ok { return; }
      ok := Statement();
      if !ok { return; }
      if recorded == {} { return true; }
      var version := Highest(recorded);
      var loaded := LoadMigrations(files);
      if loaded.None? { return false; }
      var down := FindDown(loaded.value, version);
      if down == "" {
        ok := false;
      } else {
        ok := Revert(version, down);
      }
      assert IsLoaded(files, loaded.value) && (Value(), ok) == Reverted(sql, db0, loaded.value, luck0);
    }
  }

  // ----------------------------------------------------------- stack discipline

  function Versions(ms: seq<Migration>, k: nat): set<int>
    requires k <= |ms|
  {
    set i | 0 <= i < k :: ms[i].version
  }

  /** The schema after the first k up scripts. */
  function Built<S>(sql: (string, S) -> S, empty: S, ms: seq<Migration>, k: nat): S
    requires k <= |ms|
  {
    if k == 0 then empty else sql(ms[k - 1].up, Built(sql, empty, ms, k - 1))
  }

  /** Each down script, when there is one, takes back its up script in the schema where that was applied. */
  ghost predicate Undoes<S>(sql: (string, S) -> S, empty: S, ms: seq<Migration>) {
    forall k :: 0 <= k < |ms| && ms[k].down != "" ==>
      sql(ms[k].down, Built(sql, empty, ms, k + 1)) == Built(sql, empty, ms, k)
  }

  /** The database is at height k: it records the k lowest versions, and its schema is built by their up
      scripts. */
  ghost predicate AtHeight<S>(sql: (string, S) -> S, empty: S, ms: seq<Migration>, db: Database<S>, k: nat) {
    k <= |ms| && db.recorded == Versions(ms, k) && db.schema == Built(sql, empty, ms, k)
  }

  /** So many statements apply n migrations, five for each; the fifth of the last one, the commit, may take
      effect although it fails. */
  predicate PaysFor(statements: int, commitLands: bool, n: nat) {
    if statements < 4 then n == 0
    else if statements == 5 * n - 1 then commitLands
    else 5 * n <= statements < 5 * n + 5 && !(commitLands && statements == 5 * n + 4)
  }

  lemma PaysForMore(statements: int, commitLands: bool, n: nat)
    requires statements >= 5 && PaysFor(statements - 5, commitLands, n)
    ensures PaysFor(statements, commitLands, n + 1)
  {
  }

  lemma {:induction false} SkipsRecorded<S>(sql: (string, S) -> S, db: Database<S>, ms: seq<Migration>, i: nat,
                                            luck: Luck)
    requires i < |ms| && ms[i].version in db.recorded
    ensures ApplyAll(sql, db, ms[i..], luck) ==
            if luck.statements == 0 then (db, false) else ApplyAll(sql, db, ms[i + 1..], Use(luck, 1))
  {
    assert ms[i..][0] == ms[i] && ms[i..][1..] == ms[i + 1..];
  }

  lemma {:induction false} AppliesPending<S>(sql: (string, S) -> S, db: Database<S>, ms: seq<Migration>, i: nat,
                                             luck: Luck)
    requires i < |ms| && ms[i].version !in db.recorded
    ensures var up := Database(db.recorded + {ms[i].version}, sql(ms[i].up, db.schema));
            ApplyAll(sql, db, ms[i..], luck) ==
            if luck.statements >= 5 then ApplyAll(sql, up, ms[i + 1..], Use(luck, 5))
            else if luck.statements == 4 && luck.commitLands then (up, false)
            else (db, false)
  {
    assert ms[i..][0] == ms[i] && ms[i..][1..] == ms[i + 1..];
  }

  lemma OneHigher<S>(sql: (string, S) -> S, empty: S, ms: seq<Migration>, db: Database<S>, k: nat)
    requires Ascending(ms) && AtHeight(sql, empty, ms, db, k)
    ensures forall i :: 0 <= i < |ms| ==> (ms[i].version in db.recorded <==> i < k)
    ensures k < |ms| ==>
              AtHeight(sql, empty, ms, Database(db.recorded + {ms[k].version}, sql(ms[k].up, db.schema)), k + 1)
  {
    if k < |ms| { assert Versions(ms, k + 1) == Versions(ms, k) + {ms[k].version}; }
  }

  /** What a run of the loop does from height k on, the first i of the list being done: where it ends, whether
      it succeeds, and how far it gets when it fails. */
  ghost predicate Climbs<S>(sql: (string, S) -> S, empty: S, ms: seq<Migration>, r: (Database<S>, bool), luck: Luck,
                            i: nat, k: nat, h: nat)
    requires i <= k <= |ms|
  {
    && k <= h && AtHeight(sql, empty, ms, r.0, h) && (r.1 ==> h == |ms|)
    && (r.1 <==> luck.statements - (k - i) >= 5 * (|ms| - k))
    && (!r.1 ==> PaysFor(luck.statements - (k - i), luck.commitLands, h - k))
  }

  lemma {:induction false} ApplyClimbs<S>(sql: (string, S) -> S, empty: S, ms: seq<Migration>, db: Database<S>, i: nat,
                                          k: nat, luck: Luck) returns (h: nat)
    requires Ascending(ms) && AtHeight(sql, empty, ms, db, k) && i <= k
    ensures Climbs(sql, empty, ms, ApplyAll(sql, db, ms[i..], luck), luck, i, k, h)
    decreases |ms| - i, 1
  {
    h := k;
    OneHigher(sql, empty, ms, db, k);
    if i < k {
      SkipsRecorded(sql, db, ms, i, luck);
      if luck.statements > 0 { h := ApplyClimbs(sql, empty, ms, db, i + 1, k, Use(luck, 1)); }
    } else if k < |ms| {
      h := PendingClimbs(sql, empty, ms, db, k, luck);
    }
  }

  lemma {:induction false} PendingClimbs<S>(sql: (string, S) -> S, empty: S, ms: seq<Migration>, db: Database<S>, k: nat,
                                            luck: Luck) returns (h: nat)
    requires Ascending(ms) && AtHeight(sql, empty, ms, db, k) && k < |ms|
    ensures Climbs(sql, empty, ms, ApplyAll(sql, db, ms[k..], luck), luck, k, k, h)
    decreases |ms| - k, 0
  {
    h := k;
    OneHigher(sql, empty, ms, db, k);
    AppliesPending(sql, db, ms, k, luck);
    var up := Database(db.recorded + {ms[k].version}, sql(ms[k].up, db.schema));
    if luck.statements >= 5 {
      h := ApplyClimbs(sql, empty, ms, up, k + 1, k + 1, Use(luck, 5));
      if !ApplyAll(sql, up, ms[k + 1..], Use(luck, 5)).1 {
        PaysForMore(luck.statements, luck.commitLands, h - k - 1);
      }
    } else if luck.statements == 4 && luck.commitLands {
      h := k + 1;
    }
  }

  /** Migrate only climbs. It succeeds, and reaches the top, exactly when one statement for the table, one for
      each version already recorded and five for each that is not go well; and when it fails it has climbed
      exactly as far as the statements that went well took it. */
  lemma MigrateClimbs<S>(sql: (string, S) -> S, empty: S, ms: seq<Migration>, db: Database<S>, k: nat, luck: Luck)
    returns (h: nat)
    requires Ascending(ms) && AtHeight(sql, empty, ms, db, k)
    ensures var (db', ok) := Migrated(sql, db, ms, luck);
            && k <= h && AtHeight(sql, empty, ms, db', h) && (ok ==> h == |ms|)
            && (ok <==> luck.statements - 1 - k >= 5 * (|ms| - k))
            && (!ok ==> PaysFor(luck.statements - 1 - k, luck.commitLands, h - k))
  {
    h := k;
    if luck.statements > 0 {
      assert ms[0..] == ms;
      h := ApplyClimbs(sql, empty, ms, db, 0, k, Use(luck, 1));
    }
  }

  lemma {:induction false} DownOfAt(ms: seq<Migration>, k: nat)
    requires Ascending(ms) && k < |ms|
    ensures DownOf(ms, ms[k].version) == ms[k].down
  {
    if k > 0 { DownOfAt(ms[1..], k - 1); }
  }

  /** MigrateDown steps down one migration when it succeeds above the ground; when it fails it stays, or
      has stepped down by a commit that landed unreported. It succeeds exactly when there is nothing to
      revert or a down script to run, and the statements go well. */
  lemma MigrateDownSteps<S>(sql: (string, S) -> S, empty: S, ms: seq<Migration>, db: Database<S>, k: nat, luck: Luck)
    returns (h: nat)
    requires Ascending(ms) && Undoes(sql, empty, ms) && AtHeight(sql, empty, ms, db, k)
    ensures var (db', ok) := Reverted(sql, db, ms, luck);
            && AtHeight(sql, empty, ms, db', h) && k - 1 <= h <= k
            && (ok ==> h == if k == 0 then 0 else k - 1)
            && (ok <==> if k == 0 then luck.statements >= 2 else ms[k - 1].down != "" && luck.statements >= 6)
  {
    h := k;
    if k == 0 {
      assert db.recorded == {};
    } else {
      var v := ms[k - 1].version;
      assert v in db.recorded;
      assert IsHighest(db.recorded, v);
      assert Highest(db.recorded) == v;
      DownOfAt(ms, k - 1);
      if luck.statements >= 5 && ms[k - 1].down != "" && (luck.statements > 5 || luck.commitLands) {
        h := k - 1;
        assert Versions(ms, k) - {v} == Versions(ms, k - 1);
      }
    }
  }

  function AfterCall<S>(sql: (string, S) -> S, db: Database<S>, ms: seq<Migration>, c: Call): (Database<S>, bool) {
    match c
    case MigrateCall(luck) => Migrated(sql, db, ms, luck)
    case MigrateDownCall(luck) => Reverted(sql, db, ms, luck)
  }

  function AfterCalls<S>(sql: (string, S) -> S, db: Database<S>, ms: seq<Migration>, calls: seq<Call>): Database<S> {
    if calls == [] then db
    else AfterCall(sql, AfterCalls(sql, db, ms, calls[..|calls| - 1]), ms, calls[|calls| - 1]).0
  }

  /** From an empty database, whatever calls are made and wherever they fail: the recorded versions are
      the lowest ones, and the schema is what their up scripts build. */
  lemma {:induction false} StackDiscipline<S>(sql: (string, S) -> S, empty: S, ms: seq<Migration>, calls: seq<Call>)
    returns (k: nat)
    requires Ascending(ms) && Undoes(sql, empty, ms)
    ensures AtHeight(sql, empty, ms, AfterCalls(sql, Database({}, empty), ms, calls), k)
  {
    if calls == [] {
      k := 0;
    } else {
      var n := |calls| - 1;
      var h := StackDiscipline(sql, empty, ms, calls[..n]);
      var db := AfterCalls(sql, Database({}, empty), ms, calls[..n]);
      match calls[n]
      case MigrateCall(luck) => k := MigrateClimbs(sql, empty, ms, db, h, luck);
      case MigrateDownCall(luck) => k := MigrateDownSteps(sql, empty, ms, db, h, luck);
    }
  }

  // ------------------------------------------------------------------ round trips

  /** Once a Migrate has succeeded, another one changes nothing, however it fares. */
  lemma MigrateTwice<S>(sql: (string, S) -> S, empty: S, ms: seq<Migration>, db: Database<S>, k: nat, l1: Luck, l2: Luck)
    requires Ascending(ms) && AtHeight(sql, empty, ms, db, k) && Migrated(sql, db, ms, l1).1
    ensures Migrated(sql, db, ms, l1).0 == Database(Versions(ms, |ms|), Built(sql, empty, ms, |ms|))
    ensures Migrated(sql, Migrated(sql, db, ms, l1).0, ms, l2).0 == Migrated(sql, db, ms, l1).0
  {
    var h := MigrateClimbs(sql, empty, ms, db, k, l1);
    var h2 := MigrateClimbs(sql, empty, ms, Migrated(sql, db, ms, l1).0, h, l2);
  }

  /** The database after n MigrateDown calls, and whether all of them succeeded. */
  function DownBy<S>(sql: (string, S) -> S, db: Database<S>, ms: seq<Migration>, lucks: seq<Luck>): (Database<S>, bool) {
    if lucks == [] then (db, true)
    else
      var (db', ok) := DownBy(sql, db, ms, lucks[..|lucks| - 1]);
      var (db'', ok') := Reverted(sql, db', ms, lucks[|lucks| - 1]);
      (db'', ok && ok')
  }

  /** n successful MigrateDown calls take back the n latest migrations, and no more than there are. */
  lemma {:induction false} DownByCounts<S>(sql: (string, S) -> S, empty: S, ms: seq<Migration>, db: Database<S>, k: nat,
                                           lucks: seq<Luck>)
    requires Ascending(ms) && Undoes(sql, empty, ms) && AtHeight(sql, empty, ms, db, k) && DownBy(sql, db, ms, lucks).1
    ensures AtHeight(sql, empty, ms, DownBy(sql, db, ms, lucks).0, if |lucks| <= k then k - |lucks| else 0)
  {
    if lucks != [] {
      var n := |lucks| - 1;
      DownByCounts(sql, empty, ms, db, k, lucks[..n]);
      var h := MigrateDownSteps(sql, empty, ms, DownBy(sql, db, ms, lucks[..n]).0, if n <= k then k - n else 0, lucks[n]);
    }
  }

  /** Reverting as many migrations as are applied empties the database, and any number of reverts followed
      by a Migrate restores the full one. */
  lemma {:induction false} RoundTrips<S>(sql: (string, S) -> S, empty: S, ms: seq<Migration>, db: Database<S>, k: nat,
                                         lucks: seq<Luck>, luck: Luck)
    requires Ascending(ms) && Undoes(sql, empty, ms) && AtHeight(sql, empty, ms, db, k) && DownBy(sql, db, ms, lucks).1
    ensures |lucks| == k ==> DownBy(sql, db, ms, lucks).0 == Database({}, empty)
    ensures var (db', ok) := Migrated(sql, DownBy(sql, db, ms, lucks).0, ms, luck);
            ok ==> db' == Database(Versions(ms, |ms|), Built(sql, empty, ms, |ms|))
  {
    DownByCounts(sql, empty, ms, db, k, lucks);
    var h := MigrateClimbs(sql, empty, ms, DownBy(sql, db, ms, lucks).0, if |lucks| <= k then k - |lucks| else 0, luck);
  }

  // ------------------------------------------------- the same, from the files alone

  ghost predicate RanAt<S>(sql: (string, S) -> S, files: seq<File>, dbs: seq<Database<S>>, oks: seq<bool>,
                           calls: seq<Call>, i: nat)
    requires |dbs| == |calls| + 1 && |oks| == |calls| && i < |calls|
  {
    Ran(sql, files, dbs[i], calls[i], dbs[i + 1], oks[i])
  }

  /** The databases before and after each call on a connection, and what each call reported. */
  ghost predicate History<S>(sql: (string, S) -> S, files: seq<File>, dbs: seq<Database<S>>, oks: seq<bool>,
                                   calls: seq<Call>)
  {
    && |dbs| == |calls| + 1 && |oks| == |calls|
    && forall i: nat :: i < |calls| ==> RanAt(sql, files, dbs, oks, calls, i)
  }

  /** A call on files that load is a call on the list they load to. */
  lemma {:induction false} RanOnLoaded<S>(sql: (string, S) -> S, files: seq<File>, ms: seq<Migration>,
                                           db: Database<S>, c: Call, db': Database<S>, ok: bool)
    requires IsLoaded(files, ms) && !Unloadable(files) && Ran(sql, files, db, c, db', ok)
    ensures (db', ok) == AfterCall(sql, db, ms, c)
  {
    if xs :| IsLoaded(files, xs) && c.MigrateCall? && (db', ok) == Migrated(sql, db, xs, c.luck) {
      LoadedIsUnique(files, xs, ms);
    }
    if xs :| IsLoaded(files, xs) && c.MigrateDownCall? && (db', ok) == Reverted(sql, db, xs, c.luck) {
      LoadedIsUnique(files, xs, ms);
    }
  }

  lemma {:induction false} HistoryOnLoaded<S>(sql: (string, S) -> S, files: seq<File>, ms: seq<Migration>,
                                              dbs: seq<Database<S>>, oks: seq<bool>, calls: seq<Call>, n: nat)
    requires History(sql, files, dbs, oks, calls) && n <= |calls| && IsLoaded(files, ms) && !Unloadable(files)
    ensures dbs[n] == AfterCalls(sql, dbs[0], ms, calls[..n])
  {
    if n > 0 {
      HistoryOnLoaded(sql, files, ms, dbs, oks, calls, n - 1);
      assert calls[..n][..n - 1] == calls[..n - 1];
      assert RanAt(sql, files, dbs, oks, calls, n - 1);
      RanOnLoaded(sql, files, ms, dbs[n - 1], calls[n - 1], dbs[n], oks[n - 1]);
    }
  }

  lemma {:induction false} UnloadableStandsStill<S>(sql: (string, S) -> S, files: seq<File>, dbs: seq<Database<S>>,
                                                    oks: seq<bool>, calls: seq<Call>, n: nat)
    requires History(sql, files, dbs, oks, calls) && n <= |calls| && Unloadable(files)
    ensures dbs[n] == dbs[0]
  {
    if n > 0 {
      UnloadableStandsStill(sql, files, dbs, oks, calls, n - 1);
      assert RanAt(sql, files, dbs, oks, calls, n - 1);
    }
  }

  /** Whatever calls are made on a connection to an empty database, and wherever they fail: with files that
      cannot be loaded it stays empty, and otherwise the files determine a list of migrations such that
      after every call the recorded versions are its lowest ones and the schema is what they build. */
  lemma {:induction false} StackDisciplineOnFiles<S>(sql: (string, S) -> S, empty: S, files: seq<File>,
                                                      dbs: seq<Database<S>>, oks: seq<bool>, calls: seq<Call>, n: nat)
    returns (ms: seq<Migration>, k: nat)
    requires History(sql, files, dbs, oks, calls) && n <= |calls| && dbs[0] == Database({}, empty)
    requires forall xs :: IsLoaded(files, xs) ==> Undoes(sql, empty, xs)
    ensures Unloadable(files) ==> dbs[n] == Database({}, empty)
    ensures !Unloadable(files) ==> IsLoaded(files, ms) && AtHeight(sql, empty, ms, dbs[n], k)
  {
    if Unloadable(files) {
      UnloadableStandsStill(sql, files, dbs, oks, calls, n);
      ms, k := [], 0;
    } else {
      ms := LoadedExists(files);
      HistoryOnLoaded(sql, files, ms, dbs, oks, calls, n);
      k := StackDiscipline(sql, empty, ms, calls[..n]);
    }
  }

  /** After a successful Migrate on a connection, another one leaves the database as it is. */
  lemma {:induction false} MigrateTwiceOnFiles<S>(sql: (string, S) -> S, empty: S, files: seq<File>,
                                                   ms: seq<Migration>, k: nat, db: Database<S>, l1: Luck,
                                                   db1: Database<S>, l2: Luck, db2: Database<S>, ok2: bool)
    requires IsLoaded(files, ms) && AtHeight(sql, empty, ms, db, k)
    requires Ran(sql, files, db, MigrateCall(l1), db1, true) && Ran(sql, files, db1, MigrateCall(l2), db2, ok2)
    ensures db2 == db1 == Database(Versions(ms, |ms|), Built(sql, empty, ms, |ms|))
  {
    RanOnLoaded(sql, files, ms, db, MigrateCall(l1), db1, true);
    RanOnLoaded(sql, files, ms, db1, MigrateCall(l2), db2, ok2);
    MigrateTwice(sql, empty, ms, db, k, l1, l2);
  }

  function Lucks(calls: seq<Call>): seq<Luck> {
    seq(|calls|, i requires 0 <= i < |calls| => calls[i].luck)
  }

  lemma {:induction false} DownByStep<S>(sql: (string, S) -> S, db: Database<S>, ms: seq<Migration>, lucks: seq<Luck>,
                                         luck: Luck)
    ensures var (db', ok) := DownBy(sql, db, ms, lucks);
            var (db'', ok') := Reverted(sql, db', ms, luck);
            DownBy(sql, db, ms, lucks + [luck]) == (db'', ok && ok')
  {
    assert (lucks + [luck])[..|lucks|] == lucks;
  }

  lemma {:induction false} DownHistory<S>(sql: (string, S) -> S, files: seq<File>, ms: seq<Migration>,
                                          dbs: seq<Database<S>>, oks: seq<bool>, calls: seq<Call>, n: nat)
    requires History(sql, files, dbs, oks, calls) && n <= |calls| && IsLoaded(files, ms) && !Unloadable(files)
    requires forall i :: 0 <= i < n ==> calls[i].MigrateDownCall? && oks[i]
    ensures DownBy(sql, dbs[0], ms, Lucks(calls[..n])) == (dbs[n], true)
  {
    if n > 0 {
      DownHistory(sql, files, ms, dbs, oks, calls, n - 1);
      assert RanAt(sql, files, dbs, oks, calls, n - 1);
      RanOnLoaded(sql, files, ms, dbs[n - 1], calls[n - 1], dbs[n], true);
      assert Lucks(calls[..n]) == Lucks(calls[..n - 1]) + [calls[n - 1].luck];
      DownByStep(sql, dbs[0], ms, Lucks(calls[..n - 1]), calls[n - 1].luck);
    }
  }

  /** On a connection at height k: k successful MigrateDown calls empty the database, and after any number
      of them a successful Migrate leaves the full one. */
  lemma {:induction false} RoundTripsOnFiles<S>(sql: (string, S) -> S, empty: S, files: seq<File>,
                                                 ms: seq<Migration>, k: nat, dbs: seq<Database<S>>,
                                                 oks: seq<bool>, calls: seq<Call>)
    requires IsLoaded(files, ms) && Undoes(sql, empty, ms) && History(sql, files, dbs, oks, calls)
    requires AtHeight(sql, empty, ms, dbs[0], k) && calls != []
    requires forall i :: 0 <= i < |calls| - 1 ==> calls[i].MigrateDownCall? && oks[i]
    requires calls[|calls| - 1].MigrateCall? && oks[|calls| - 1]
    ensures |calls| - 1 == k ==> dbs[k] == Database({}, empty)
    ensures dbs[|calls|] == Database(Versions(ms, |ms|), Built(sql, empty, ms, |ms|))
  {
    var n := |calls| - 1;
    assert RanAt(sql, files, dbs, oks, calls, n);
    DownHistory(sql, files, ms, dbs, oks, calls, n);
    RanOnLoaded(sql, files, ms, dbs[n], calls[n], dbs[n + 1], oks[n]);
    RoundTrips(sql, empty, ms, dbs[0], k, Lucks(calls[..n]), calls[n].luck);
  }

  // ------------------------------------------------ scripts that create one table

  /** The k-th up script creates a table if it is missing, and the k-th down script drops it if it is
      there, as the embedded scripts do. */
  ghost predicate TableScripts(sql: (string, set<string>) -> set<string>, ms: seq<Migration>, tables: seq<string>) {
    |tables| == |ms| &&
    forall k, s :: 0 <= k < |ms| ==>
      ms[k].down != "" && sql(ms[k].up, s) == s + {tables[k]} && sql(ms[k].down, s) == s - {tables[k]}
  }

  lemma {:induction false} TablesBuilt(sql: (string, set<string>) -> set<string>, ms: seq<Migration>,
                                       tables: seq<string>, k: nat)
    requires TableScripts(sql, ms, tables) && k <= |ms|
    ensures Built(sql, {}, ms, k) == set i | 0 <= i < k :: tables[i]
  {
    if k > 0 { TablesBuilt(sql, ms, tables, k - 1); }
  }

  /** Such scripts undo one another exactly when no two migrations create the same table. */
  lemma TableScriptsUndoIffDistinct(sql: (string, set<string>) -> set<string>, ms: seq<Migration>, tables: seq<string>)
    requires TableScripts(sql, ms, tables)
    ensures Undoes(sql, {}, ms) <==> Distinct(tables)
  {
    if Distinct(tables) {
      forall k | 0 <= k < |ms| ensures sql(ms[k].down, Built(sql, {}, ms, k + 1)) == Built(sql, {}, ms, k) {
        TablesBuilt(sql, ms, tables, k);
        TablesBuilt(sql, ms, tables, k + 1);
      }
    } else {
      var i, k :| 0 <= i < k < |tables| && tables[i] == tables[k];
      TablesBuilt(sql, ms, tables, k);
      assert tables[i] in Built(sql, {}, ms, k);
      assert sql(ms[k].down, Built(sql, {}, ms, k + 1)) == Built(sql, {}, ms, k + 1) - {tables[k]};
    }
  }
}
