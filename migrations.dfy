/**
 * The router's schema-migration runner as a function of the store: an ordered
 * list of steps, each applied in its own transaction and recorded in the
 * `schema_migrations` ledger when it commits. The runner's own code is not part
 * of this model; it is specified by what the migration test needs of it: steps
 * run in list order, a recorded step is not run again, the first failure ends
 * the run and leaves the store as the last committed step left it.
 */
module Migrations {
  import opened Wrappers
  import opened TlsDedup

  /** What a step does: schema statements (only their success is modelled) or the TLS-object dedup. */
  datatype Step = Statements | TlsObjectDedup

  /** An entry of the ordered migration list. */
  datatype Migration = Migration(id: nat, step: Step)

  /** The store: route rows, the two certificate tables and the ids in `schema_migrations`, in commit order. */
  datatype Store = Store(routes: seq<Route>, tables: Tables, applied: seq<nat>)

  /** Why a run stopped. */
  datatype MigrationError =
    | StorageError(migrationId: nat)
    | IntegrityError(migrationId: nat, digest: Digest)
    | ConfigurationError(from: int, to: int)

  /** The store after a run, and the error that ended it, if any. */
  datatype Outcome = Outcome(store: Store, error: Option<MigrationError>)

  /** The ids of a list of migrations, in order. */
  function Ids(ms: seq<Migration>): (ids: seq<nat>)
    ensures |ids| == |ms|
    ensures forall i :: 0 <= i < |ms| ==> ids[i] == ms[i].id
  {
    if ms == [] then [] else [ms[0].id] + Ids(ms[1..])
  }

  /**
   * One step in its own transaction. A step whose id is in the ledger is
   * skipped. A storage fault (the ids in `faults`) or an integrity violation
   * aborts the step and leaves the store as it was. Otherwise the step's effect
   * commits together with its ledger entry.
   */
  function ApplyOne(s: Store, m: Migration, sha256: string -> Digest, faults: set<nat>): (r: Result<Store, MigrationError>)
    ensures m.id in s.applied ==> r == Ok(s)
    ensures r.Ok? ==> r.value.routes == s.routes
    ensures r.Ok? && m.id !in s.applied ==> r.value.applied == s.applied + [m.id]
    ensures r.Ok? && m.step == Statements ==> r.value.tables == s.tables
    ensures r.Err? ==> m.id !in s.applied && !r.error.ConfigurationError? && r.error.migrationId == m.id
  {
    if m.id in s.applied then Ok(s)
    else if m.id in faults then Err(StorageError(m.id))
    else
      match m.step
      case Statements => Ok(s.(applied := s.applied + [m.id]))
      case TlsObjectDedup =>
        match Migrated(s.tables, s.routes, sha256)
        case Err(e) => Err(IntegrityError(m.id, e.digest))
        case Ok(t) => Ok(Store(s.routes, t, s.applied + [m.id]))
  }

  /**
   * A step fails exactly when it is not recorded yet and either storage fails
   * or it is the TLS dedup and the dedup meets a digest collision.
   */
  lemma ApplyOneFails(s: Store, m: Migration, sha256: string -> Digest, faults: set<nat>)
    ensures ApplyOne(s, m, sha256, faults).Err? <==>
      m.id !in s.applied && (m.id in faults || (m.step == TlsObjectDedup && Migrated(s.tables, s.routes, sha256).Err?))
  {
  }

  /** The steps of `ms` applied in order; the first failing step ends the run. */
  function ApplyAll(s: Store, ms: seq<Migration>, sha256: string -> Digest, faults: set<nat>): (r: Outcome)
    ensures r.error.Some? ==> ms != [] && !r.error.value.ConfigurationError?
    ensures r.error.Some? ==> r.error.value.migrationId !in r.store.applied
    decreases |ms|
  {
    if ms == [] then Outcome(s, None)
    else
      match ApplyOne(s, ms[0], sha256, faults)
      case Err(e) => Outcome(s, Some(e))
      case Ok(s') => ApplyAll(s', ms[1..], sha256, faults)
  }

  /** A run never touches the route rows. */
  lemma {:induction false} ApplyAllKeepsRoutes(s: Store, ms: seq<Migration>, sha256: string -> Digest, faults: set<nat>)
    ensures ApplyAll(s, ms, sha256, faults).store.routes == s.routes
    decreases |ms|
  {
    if ms != [] {
      match ApplyOne(s, ms[0], sha256, faults)
      case Err(_) =>
      case Ok(s') => ApplyAllKeepsRoutes(s', ms[1..], sha256, faults);
    }
  }

  /**
   * The ledger only grows: what was recorded stays recorded, and after a run
   * without error every step of the list is recorded.
   */
  lemma {:induction false} ApplyAllExtendsLedger(s: Store, ms: seq<Migration>, sha256: string -> Digest, faults: set<nat>)
    ensures s.applied <= ApplyAll(s, ms, sha256, faults).store.applied
    ensures ApplyAll(s, ms, sha256, faults).error.None? ==>
      forall i :: 0 <= i < |ms| ==> ms[i].id in ApplyAll(s, ms, sha256, faults).store.applied
    decreases |ms|
  {
    if ms != [] {
      match ApplyOne(s, ms[0], sha256, faults)
      case Err(_) =>
      case Ok(s') =>
        ApplyAllExtendsLedger(s', ms[1..], sha256, faults);
        var o := ApplyAll(s', ms[1..], sha256, faults);
        assert ms[0].id in s'.applied;
        if o.error.None? {
          forall i | 0 <= i < |ms| ensures ms[i].id in o.store.applied {
            if i > 0 {
              assert ms[i] == ms[1..][i - 1];
            } else {
              assert s'.applied <= o.store.applied;
            }
          }
        }
    }
  }

  /** A run records nothing but the ids of its own steps. */
  lemma {:induction false} ApplyAllRecordsOnlyItsSteps(s: Store, ms: seq<Migration>, sha256: string -> Digest, faults: set<nat>, x: nat)
    requires x in ApplyAll(s, ms, sha256, faults).store.applied
    ensures x in s.applied || exists i :: 0 <= i < |ms| && ms[i].id == x
    decreases |ms|
  {
    if ms != [] {
      match ApplyOne(s, ms[0], sha256, faults)
      case Err(_) =>
      case Ok(s') =>
        ApplyAllRecordsOnlyItsSteps(s', ms[1..], sha256, faults, x);
        if x !in s'.applied {
          var i :| 0 <= i < |ms[1..]| && ms[1..][i].id == x;
          assert ms[i + 1].id == x;
        }
    }
  }

  /** The ids of `ms` are pairwise distinct. */
  predicate DistinctMigrationIds(ms: seq<Migration>) {
    forall i, j :: 0 <= i < |ms| && 0 <= j < |ms| && ms[i].id == ms[j].id ==> i == j
  }

  /** Recording the first of distinct fresh steps leaves the others distinct and fresh. */
  lemma TailStaysFresh(ms: seq<Migration>, applied: seq<nat>)
    requires ms != [] && DistinctMigrationIds(ms)
    requires forall i :: 0 <= i < |ms| ==> ms[i].id !in applied
    ensures DistinctMigrationIds(ms[1..])
    ensures forall i :: 0 <= i < |ms[1..]| ==> ms[1..][i].id !in applied + [ms[0].id]
  {
    assert forall i :: 0 <= i < |ms[1..]| ==> ms[1..][i] == ms[i + 1];
  }

  /** On a fresh range of distinct steps, a run without error records exactly their ids, in list order. */
  lemma {:induction false} ApplyAllRecordsInOrder(s: Store, ms: seq<Migration>, sha256: string -> Digest, faults: set<nat>)
    requires DistinctMigrationIds(ms)
    requires forall i :: 0 <= i < |ms| ==> ms[i].id !in s.applied
    requires ApplyAll(s, ms, sha256, faults).error.None?
    ensures ApplyAll(s, ms, sha256, faults).store.applied == s.applied + Ids(ms)
    decreases |ms|
  {
    if ms != [] {
      var rest := ms[1..];
      match ApplyOne(s, ms[0], sha256, faults)
      case Err(_) => assert false;
      case Ok(s') =>
        TailStaysFresh(ms, s.applied);
        ApplyAllRecordsInOrder(s', rest, sha256, faults);
        calc {
          ApplyAll(s, ms, sha256, faults).store.applied;
          ApplyAll(s', rest, sha256, faults).store.applied;
          (s.applied + [ms[0].id]) + Ids(rest);
          s.applied + ([ms[0].id] + Ids(rest));
          s.applied + Ids(ms);
        }
    }
  }

  /**
   * A run that fails stops at one step: every step before it committed, the
   * failing step is not recorded, and the store is the one the steps before it
   * left.
   */
  lemma {:induction false} ApplyAllStopsAtFailure(s: Store, ms: seq<Migration>, sha256: string -> Digest, faults: set<nat>)
    requires ApplyAll(s, ms, sha256, faults).error.Some?
    ensures var o := ApplyAll(s, ms, sha256, faults);
      exists k ::
        && 0 <= k < |ms|
        && ApplyAll(s, ms[..k], sha256, faults) == Outcome(o.store, None)
        && ApplyOne(o.store, ms[k], sha256, faults) == Err(o.error.value)
        && ms[k].id !in o.store.applied
    decreases |ms|
  {
    var o := ApplyAll(s, ms, sha256, faults);
    match ApplyOne(s, ms[0], sha256, faults)
    case Err(e) =>
      assert ms[..0] == [];
      assert ApplyAll(s, ms[..0], sha256, faults) == Outcome(o.store, None);
    case Ok(s') =>
      ApplyAllStopsAtFailure(s', ms[1..], sha256, faults);
      var k :|
        && 0 <= k < |ms[1..]|
        && ApplyAll(s', ms[1..][..k], sha256, faults) == Outcome(o.store, None)
        && ApplyOne(o.store, ms[1..][k], sha256, faults) == Err(o.error.value)
        && ms[1..][k].id !in o.store.applied;
      assert ms[..k + 1][1..] == ms[1..][..k];
      assert ms[..k + 1][0] == ms[0];
      assert ApplyAll(s, ms[..k + 1], sha256, faults) == Outcome(o.store, None);
      assert ms[k + 1] == ms[1..][k];
  }

  /** Running `a + b` is running `a` and then, if it did not fail, `b` from where `a` left the store. */
  lemma {:induction false} ApplyAllSplit(s: Store, a: seq<Migration>, b: seq<Migration>, sha256: string -> Digest, faults: set<nat>)
    ensures ApplyAll(s, a + b, sha256, faults) ==
      var o := ApplyAll(s, a, sha256, faults);
      if o.error.Some? then o else ApplyAll(o.store, b, sha256, faults)
    decreases |a|
  {
    if a == [] {
      assert a + b == b;
    } else {
      assert (a + b)[0] == a[0];
      assert (a + b)[1..] == a[1..] + b;
      match ApplyOne(s, a[0], sha256, faults)
      case Err(_) =>
      case Ok(s') => ApplyAllSplit(s', a[1..], b, sha256, faults);
    }
  }

  /** Steps that are all recorded already change nothing. */
  lemma {:induction false} ApplyAllSkipsApplied(s: Store, ms: seq<Migration>, sha256: string -> Digest, faults: set<nat>)
    requires forall i :: 0 <= i < |ms| ==> ms[i].id in s.applied
    ensures ApplyAll(s, ms, sha256, faults) == Outcome(s, None)
    decreases |ms|
  {
    if ms != [] {
      assert ApplyOne(s, ms[0], sha256, faults) == Ok(s);
      forall i | 0 <= i < |ms[1..]| ensures ms[1..][i].id in s.applied {
        assert ms[1..][i] == ms[i + 1];
      }
      ApplyAllSkipsApplied(s, ms[1..], sha256, faults);
    }
  }

  /**
   * Re-applying a range that committed is a no-op: in particular the TLS dedup
   * does not run a second time and creates no further certificate rows.
   */
  lemma ReapplyIsNoOp(s: Store, ms: seq<Migration>, sha256: string -> Digest, faults: set<nat>)
    requires ApplyAll(s, ms, sha256, faults).error.None?
    ensures var o := ApplyAll(s, ms, sha256, faults);
      ApplyAll(o.store, ms, sha256, faults) == Outcome(o.store, None)
  {
    ApplyAllExtendsLedger(s, ms, sha256, faults);
    ApplyAllSkipsApplied(ApplyAll(s, ms, sha256, faults).store, ms, sha256, faults);
  }

  /** The TLS dedup step run on the empty tables it starts from leaves them consistent with the route rows. */
  lemma TlsStepConsistent(s: Store, id: nat, sha256: string -> Digest, faults: set<nat>)
    requires s.tables == NoTables && id !in s.applied
    requires ApplyOne(s, Migration(id, TlsObjectDedup), sha256, faults).Ok?
    ensures Consistent(ApplyOne(s, Migration(id, TlsObjectDedup), sha256, faults).value.tables, s.routes, sha256)
  {
    MigratedConsistent(s.routes, sha256);
  }
}
