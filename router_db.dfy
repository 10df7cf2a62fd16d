/**
 * The router's database as the migration test drives it: the route rows, the
 * two certificate tables and the `schema_migrations` ledger are fields that the
 * migration code updates in place. Each method is proved against the functions
 * of `TlsDedup` and `Migrations`, so the lemmas proved there hold of the store.
 */
module RouterStore {
  import opened Wrappers
  import opened Whitespace
  import opened TlsDedup
  import opened Migrations

  class RouterDb {
    var routes: seq<Route>
    var certificates: seq<Certificate>
    var routeCertificates: seq<RouteCertificate>
    var schemaMigrations: seq<nat>

    /** The two certificate tables as a value. */
    function CertTables(): Tables
      reads this
    {
      Tables(certificates, routeCertificates)
    }

    /** The whole store as a value. */
    function Snapshot(): Store
      reads this
    {
      Store(routes, CertTables(), schemaMigrations)
    }

    /** A freshly set-up database: no routes, empty tables, nothing migrated. */
    constructor ()
      ensures Snapshot() == Store([], NoTables, [])
    {
      routes := [];
      certificates := [];
      routeCertificates := [];
      schemaMigrations := [];
    }

    /** An `INSERT INTO http_routes` of the test. */
    method AddRoute(r: Route)
      modifies this
      ensures Snapshot() == old(Snapshot()).(routes := old(routes) + [r])
    {
      routes := routes + [r];
    }

    /** The test's inserts of a list of routes, in order. */
    method InsertRoutes(rs: seq<Route>)
      modifies this
      ensures Snapshot() == old(Snapshot()).(routes := old(routes) + rs)
    {
      var i := 0;
      while i < |rs|
        invariant 0 <= i <= |rs|
        invariant Snapshot() == old(Snapshot()).(routes := old(routes) + rs[..i])
      {
        assert rs[..i + 1] == rs[..i] + [rs[i]];
        AddRoute(rs[i]);
        i := i + 1;
      }
      assert rs[..i] == rs;
    }

    /** The lookup on the unique digest column: the row holding digest `d`, if any. */
    method LookupDigest(d: Digest) returns (idx: Option<nat>)
      ensures idx.Some? ==> idx.value < |certificates| && certificates[idx.value].certSha256 == d
      ensures idx.None? <==> forall i :: 0 <= i < |certificates| ==> certificates[i].certSha256 != d
      ensures idx == FindDigest(certificates, d)
    {
      var i := 0;
      while i < |certificates|
        invariant 0 <= i <= |certificates|
        invariant forall k :: 0 <= k < i ==> certificates[k].certSha256 != d
      {
        if certificates[i].certSha256 == d {
          return Some(i);
        }
        i := i + 1;
      }
      return None;
    }

    /**
     * Insert-or-get of one certificate row, keyed by its digest: the id of the
     * row, or an integrity violation when the digest is stored with another body.
     */
    method InsertOrGetCertificate(cert: string, key: string, digest: Digest) returns (res: Result<nat, DedupError>)
      modifies this
      ensures routes == old(routes) && routeCertificates == old(routeCertificates)
      ensures schemaMigrations == old(schemaMigrations)
      ensures match GetOrCreate(old(certificates), cert, key, digest)
        case Ok(st) => res == Ok(st.certificateId) && certificates == st.certificates
        case Err(e) => res == Err(e) && certificates == old(certificates)
    {
      var found := LookupDigest(digest);
      match found
      case Some(i) =>
        if certificates[i].cert == cert {
          res := Ok(i);
        } else {
          res := Err(IntegrityViolation(digest));
        }
      case None =>
        res := Ok(|certificates|);
        certificates := certificates + [Certificate(cert, key, digest)];
    }

    /**
     * The TLS-object dedup: every route row, in table order, that carries a
     * certificate gets a certificate row (shared by equal trimmed bodies) and a
     * link row. A digest collision stops the scan; the rows written so far are
     * left for the enclosing transaction to discard.
     */
    method MigrateTlsObject(sha256: string -> Digest) returns (err: Option<DedupError>)
      modifies this
      ensures routes == old(routes) && schemaMigrations == old(schemaMigrations)
      ensures match Migrated(old(CertTables()), routes, sha256)
        case Ok(t) => err == None && CertTables() == t
        case Err(e) => err == Some(e)
    {
      ghost var t0 := CertTables();
      var i := 0;
      while i < |routes|
        invariant 0 <= i <= |routes|
        invariant routes == old(routes) && schemaMigrations == old(schemaMigrations)
        invariant Migrated(t0, routes[..i], sha256) == Ok(CertTables())
      {
        var r := routes[i];
        assert routes[..i + 1] == routes[..i] + [r];
        assert routes[..i + 1][..i] == routes[..i];
        err := ImportRoute(r, sha256);
        if err.Some? {
          assert Migrated(t0, routes[..i + 1], sha256) == Err(err.value);
          MigratedErrorStops(t0, routes, sha256, i + 1);
          return err;
        }
        i := i + 1;
      }
      assert routes[..i] == routes;
      err := None;
    }

    /** One iteration of the dedup: the certificate and link rows for route `r`, if it carries a certificate. */
    method ImportRoute(r: Route, sha256: string -> Digest) returns (err: Option<DedupError>)
      modifies this
      ensures routes == old(routes) && schemaMigrations == old(schemaMigrations)
      ensures match Visit(old(CertTables()), r, sha256)
        case Ok(t) => err == None && CertTables() == t
        case Err(e) => err == Some(e)
    {
      err := None;
      if r.legacyTlsCert.Some? && r.legacyTlsKey.Some? {
        var body, key := TrimSpace(r.legacyTlsCert.value), TrimSpace(r.legacyTlsKey.value);
        if body != "" && key != "" {
          var res := InsertOrGetCertificate(body, key, sha256(body));
          match res
          case Err(e) =>
            err := Some(e);
          case Ok(id) =>
            routeCertificates := routeCertificates + [RouteCertificate(r.id, id)];
        }
      }
    }

    /**
     * One migration in its own transaction: skipped when the ledger records it,
     * rolled back to the state before it on failure, committed with its ledger
     * entry otherwise.
     */
    method ApplyMigration(m: Migration, sha256: string -> Digest, faults: set<nat>) returns (err: Option<MigrationError>)
      modifies this
      ensures match ApplyOne(old(Snapshot()), m, sha256, faults)
        case Ok(s) => err == None && Snapshot() == s
        case Err(e) => err == Some(e) && Snapshot() == old(Snapshot())
    {
      if m.id in schemaMigrations {
        return None;
      }
      if m.id in faults {
        return Some(StorageError(m.id));
      }
      var saved := CertTables();
      match m.step {
        case Statements =>
        case TlsObjectDedup =>
          var e := MigrateTlsObject(sha256);
          if e.Some? {
            certificates, routeCertificates := saved.certificates, saved.routeCertificates;
            return Some(IntegrityError(m.id, e.value.digest));
          }
      }
      schemaMigrations := schemaMigrations + [m.id];
      return None;
    }

    /** `Migrate` of a list of migrations: each in order, until the first that fails. */
    method Migrate(ms: seq<Migration>, sha256: string -> Digest, faults: set<nat>) returns (err: Option<MigrationError>)
      modifies this
      ensures ApplyAll(old(Snapshot()), ms, sha256, faults) == Outcome(Snapshot(), err)
    {
      var i := 0;
      while i < |ms|
        invariant 0 <= i <= |ms|
        invariant ApplyAll(old(Snapshot()), ms, sha256, faults) == ApplyAll(Snapshot(), ms[i..], sha256, faults)
      {
        assert ms[i..][0] == ms[i] && ms[i..][1..] == ms[i + 1..];
        err := ApplyMigration(ms[i], sha256, faults);
        if err.Some? {
          return;
        }
        i := i + 1;
      }
      return None;
    }
  }

  /** The test's migrator: the database, the router's migration list and how far it has been applied. */
  class TestMigrator {
    const db: RouterDb
    const migrations: seq<Migration>
    const sha256: string -> Digest
    var id: int

    ghost predicate Valid()
      reads this
    {
      0 <= id <= |migrations|
    }

    constructor (db: RouterDb, migrations: seq<Migration>, sha256: string -> Digest)
      ensures Valid() && this.db == db && this.migrations == migrations && this.sha256 == sha256 && id == 0
    {
      this.db := db;
      this.migrations := migrations;
      this.sha256 := sha256;
      id := 0;
    }

    /**
     * `migrateTo`: runs the migrations from the current position up to `target`
     * and moves the position there. A range that is not a slice of the list runs
     * nothing; a failing run leaves the position where it was.
     */
    method MigrateTo(target: int, faults: set<nat>) returns (err: Option<MigrationError>)
      requires Valid()
      modifies this, db
      ensures Valid()
      ensures !(old(id) <= target <= |migrations|) ==>
        err == Some(ConfigurationError(old(id), target)) && id == old(id) && db.Snapshot() == old(db.Snapshot())
      ensures old(id) <= target <= |migrations| ==>
        && Outcome(db.Snapshot(), err) == ApplyAll(old(db.Snapshot()), migrations[old(id)..target], sha256, faults)
        && id == (if err.None? then target else old(id))
    {
      if !(id <= target <= |migrations|) {
        return Some(ConfigurationError(id, target));
      }
      err := db.Migrate(migrations[id..target], sha256, faults);
      if err.None? {
        id := target;
      }
    }
  }

  /** Migrations that are all plain statements, none of them failing, only record their ids. */
  lemma {:induction false} StatementsOnlyRecord(s: Store, ms: seq<Migration>, sha256: string -> Digest, faults: set<nat>)
    requires forall i :: 0 <= i < |ms| ==> ms[i].step == Statements && ms[i].id !in faults
    ensures ApplyAll(s, ms, sha256, faults).error == None
    ensures ApplyAll(s, ms, sha256, faults).store.tables == s.tables
    decreases |ms|
  {
    if ms != [] {
      var s' := ApplyOne(s, ms[0], sha256, faults);
      assert s'.Ok? && s'.value.tables == s.tables;
      assert forall i :: 0 <= i < |ms[1..]| ==> ms[1..][i] == ms[i + 1];
      StatementsOnlyRecord(s'.value, ms[1..], sha256, faults);
    }
  }

  /**
   * The test's first call, `migrateTo(4)` on a fresh database: the four schema
   * migrations commit, no certificate row exists yet, and the fifth migration
   * is not recorded.
   */
  lemma MigrateToFour(migrations: seq<Migration>, sha256: string -> Digest)
    requires |migrations| >= 5
    requires forall i :: 0 <= i < 4 ==> migrations[i].step == Statements
    requires forall i :: 0 <= i < 4 ==> migrations[i].id != migrations[4].id
    ensures var o := ApplyAll(Store([], NoTables, []), migrations[0..4], sha256, {});
      && o.error == None && o.store.routes == [] && o.store.tables == NoTables
      && migrations[4].id !in o.store.applied
  {
    var s0 := Store([], NoTables, []);
    StatementsOnlyRecord(s0, migrations[0..4], sha256, {});
    ApplyAllKeepsRoutes(s0, migrations[0..4], sha256, {});
    if migrations[4].id in ApplyAll(s0, migrations[0..4], sha256, {}).store.applied {
      ApplyAllRecordsOnlyItsSteps(s0, migrations[0..4], sha256, {}, migrations[4].id);
      assert false;
    }
  }

  /** A run of the TLS dedup step alone, not yet recorded, on empty tables is the dedup of the routes. */
  lemma MigrateTlsStep(s: Store, m: Migration, sha256: string -> Digest)
    requires m.step == TlsObjectDedup && m.id !in s.applied && s.tables == NoTables
    requires Migrated(NoTables, s.routes, sha256).Ok?
    ensures ApplyAll(s, [m], sha256, {}) == Outcome(Store(s.routes, Migrated(NoTables, s.routes, sha256).value, s.applied + [m.id]), None)
  {
    assert [m][1..] == [];
  }

  /** The routes the test inserts: the fourth carries the third's certificate and key wrapped in whitespace, the fifth no TLS. */
  function TestRoutes(c0: string, c1: string, c2: string, k0: string, k1: string, k2: string): seq<Route> {
    ScenarioRoutes(c0, c1, c2, CertPrefix + c2 + CertSuffix, k0, k1, k2, KeyPrefix + k2 + KeySuffix)
  }

  /**
   * What the test asserts of the tables after `migrateTo(5)`: three certificate
   * rows and four links, no certificate for the fifth route, and each other
   * route joined to its own trimmed certificate and key.
   */
  predicate TlsObjectExpected(t: Tables, c0: string, c1: string, c2: string, k0: string, k1: string, k2: string, sha256: string -> Digest) {
    && |t.certificates| == 3 && |t.routeCertificates| == 4
    && JoinedCertificate(t, 5) == None
    && JoinsTo(t, 1, c0, k0, sha256) && JoinsTo(t, 2, c1, k1, sha256)
    && JoinsTo(t, 3, c2, k2, sha256) && JoinsTo(t, 4, c2, k2, sha256)
  }

  /** The certificates the test generates: distinct once trimmed, none empty, with distinct digests. */
  predicate TestCertificates(c0: string, c1: string, c2: string, k0: string, k1: string, k2: string, sha256: string -> Digest) {
    && TrimSpace(c0) != "" && TrimSpace(c1) != "" && TrimSpace(c2) != ""
    && TrimSpace(k0) != "" && TrimSpace(k1) != "" && TrimSpace(k2) != ""
    && TrimSpace(c0) != TrimSpace(c1) && TrimSpace(c1) != TrimSpace(c2) && TrimSpace(c0) != TrimSpace(c2)
    && sha256(TrimSpace(c0)) != sha256(TrimSpace(c1)) && sha256(TrimSpace(c1)) != sha256(TrimSpace(c2))
    && sha256(TrimSpace(c0)) != sha256(TrimSpace(c2))
  }

  /** The dedup of the test's routes succeeds and gives what the test asserts. */
  lemma TestRoutesMigrate(c0: string, c1: string, c2: string, k0: string, k1: string, k2: string, sha256: string -> Digest)
    requires TestCertificates(c0, c1, c2, k0, k1, k2, sha256)
    ensures Migrated(NoTables, TestRoutes(c0, c1, c2, k0, k1, k2), sha256).Ok?
    ensures TlsObjectExpected(Migrated(NoTables, TestRoutes(c0, c1, c2, k0, k1, k2), sha256).value, c0, c1, c2, k0, k1, k2, sha256)
  {
    ScenarioPaddingTrims(c2, k2);
    TlsObjectScenario(c0, c1, c2, CertPrefix + c2 + CertSuffix, k0, k1, k2, KeyPrefix + k2 + KeySuffix, sha256);
  }

  /**
   * The test's sequence on any route rows: migrate a fresh database to 4,
   * insert `rs`, migrate to 5. When the dedup of `rs` succeeds, both runs
   * succeed, the route rows are still `rs` and the certificate tables are that
   * dedup.
   */
  method MigrateAroundInserts(migrations: seq<Migration>, sha256: string -> Digest, rs: seq<Route>)
      returns (err4: Option<MigrationError>, err5: Option<MigrationError>, routes: seq<Route>, tables: Tables)
    requires |migrations| >= 5
    requires forall i :: 0 <= i < 4 ==> migrations[i].step == Statements
    requires migrations[4].step == TlsObjectDedup
    requires forall i :: 0 <= i < 4 ==> migrations[i].id != migrations[4].id
    requires Migrated(NoTables, rs, sha256).Ok?
    ensures err4 == None && err5 == None
    ensures routes == rs
    ensures tables == Migrated(NoTables, rs, sha256).value
  {
    var db := new RouterDb();
    var m := new TestMigrator(db, migrations, sha256);
    err4 := m.MigrateTo(4, {});
    MigrateToFour(migrations, sha256);
    db.InsertRoutes(rs);
    assert [] + rs == rs;
    assert db.Snapshot().routes == rs;
    assert migrations[4..5] == [migrations[4]];
    MigrateTlsStep(db.Snapshot(), migrations[4], sha256);
    err5 := m.MigrateTo(5, {});
    routes, tables := db.routes, db.CertTables();
  }

  /**
   * `TestMigrateTLSObject` end to end: migrate a fresh database to 4, insert
   * the test's routes, migrate to 5. Both runs succeed, the route rows are the
   * ones inserted, and the tables are what the test asserts.
   */
  method TestMigrateTlsObject(migrations: seq<Migration>, sha256: string -> Digest,
                              c0: string, c1: string, c2: string, k0: string, k1: string, k2: string)
      returns (err4: Option<MigrationError>, err5: Option<MigrationError>, routes: seq<Route>, tables: Tables)
    requires |migrations| >= 5
    requires forall i :: 0 <= i < 4 ==> migrations[i].step == Statements
    requires migrations[4].step == TlsObjectDedup
    requires forall i :: 0 <= i < 4 ==> migrations[i].id != migrations[4].id
    requires TestCertificates(c0, c1, c2, k0, k1, k2, sha256)
    ensures err4 == None && err5 == None
    ensures routes == TestRoutes(c0, c1, c2, k0, k1, k2)
    ensures TlsObjectExpected(tables, c0, c1, c2, k0, k1, k2, sha256)
  {
    TestRoutesMigrate(c0, c1, c2, k0, k1, k2, sha256);
    err4, err5, routes, tables := MigrateAroundInserts(migrations, sha256, TestRoutes(c0, c1, c2, k0, k1, k2));
  }
}
