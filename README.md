# flynn release commands and the router's TLS-object migration

This project models two parts of Flynn in Dafny and proves properties of the
models.

**`flynn release` (cli/release.go).**
- `runRelease` picks a sub-command from the parsed flags.
- `runReleaseRollback` picks the release to deploy, or fails with one of its
  two messages.
- `runReleaseUpdate` merges an update file into an existing release: either a
  `--clean` replacement, or a key-by-key merge of `Env`, `Meta` and each process
  type.

Go maps are modelled as `Nil | Made(entries)`. Go lets a program read a nil map
but not write into it, and that difference matters here (see "## Findings").

**The router's migration to schema version 5 (router/migrate_test.go).**
- The test's `testMigrator.migrateTo` runs a slice of the router's migration
  list against the database, one transaction per step, recorded in the
  `schema_migrations` ledger.
- Step 5 moves each route's legacy `tls_cert`/`tls_key` into a deduplicated
  `certificates` table plus a `route_certificates` link table.
- The migration's own code is not part of this model. The model assumes that
  it trims the certificate and key with Go's `strings.TrimSpace`, hashes the
  trimmed certificate and stores the trimmed values. The test itself requires
  only that the stored certificate and key equal the route's once both are
  trimmed (router/migrate_test.go:163-164), and that the stored digest is that
  of the trimmed certificate (router/migrate_test.go:158-159, 165).
- Routes whose trimmed bodies are equal share one certificate row.
- A route without a certificate gets no rows, so the left join reads it as
  absent.

The model has four layers:
- `Whitespace`: `strings.TrimSpace` over Unicode White_Space.
- `TlsDedup`: the dedup step as a function of the tables, plus its invariants.
- `Migrations`: the migration runner as a function of the store.
- `RouterStore`: the database and the test's migrator as classes. Their fields
  are updated in place by loops that are proved against those functions.

The module layout follows the source:

| file | module | models |
|---|---|---|
| release_commands.dfy | `ReleaseCommands` | `runRelease`, `runReleaseRollback` |
| release_update.dfy | `ReleaseUpdate` | the merge block of `runReleaseUpdate` |
| whitespace.dfy | `Whitespace` | `strings.TrimSpace` |
| tls_dedup.dfy | `TlsDedup` | the TLS-object dedup step and what `TestMigrateTLSObject` asserts of it |
| migrations.dfy | `Migrations` | the per-step transactional migration runner |
| router_db.dfy | `RouterStore` | the database tables, `testMigrator`, the test end to end |
| wrappers.dfy | `Wrappers` | `Option` and `Result` |

Two decisions of the model about the dedup step:
- **Certificate identity is the trimmed body.** Certificate rows are counted
  per distinct trimmed body, not per (body, key) pair, because the test hashes
  only the certificate (router/migrate_test.go:158-159). Routes with equal
  bodies therefore share a row whatever their keys, and the row keeps the key
  of the first such route in table order.
- **A digest collision is an error.** If the digest is already stored with a
  *different* body, the step fails with an integrity violation. It does not
  reuse that row.

## Model

| member | source | states |
|---|---|---|
| ReleaseCommands.Dispatch | cli/release.go:114-135 | The first set flag, in the order show, add, update, delete, rollback, picks the handler; listing runs when none is set. `add` with a `-t` other than `docker` fails with `Release type <t> not supported.`, and only then. |
| ReleaseCommands.DispatchRunsTheNamedCommand | cli/release.go:19-25 | With at most one sub-command flag set (one usage line), exactly that sub-command runs (`add` only for docker). |
| ReleaseCommands.RollbackTarget | cli/release.go:346-358 | No id given: a listing error is passed on; fewer than two releases gives "Not enough releases…"; otherwise the second release of the list. Id given: equal to the current release gives "Release id given is the current release.", otherwise that id. A given id is never the current release. |
| ReleaseCommands.RunRollback | cli/release.go:341-370 | An error fetching the current release is passed on. Target errors are passed on. Without `--yes` and without confirmation nothing is deployed. Otherwise exactly the target is deployed. |
| ReleaseUpdate.Overlay | cli/release.go:261-266 | `for k, v := range src { dst[k] = v }`: the result has every key of both maps with the update's values winning. An empty update leaves the map as it was, even nil. |
| ReleaseUpdate.MergedProcess | cli/release.go:274-303 | The merge of one process type: `Env` and `Resources` are overridden key by key, and each boolean flag is on when it was on in either the existing type or the update. |
| ReleaseUpdate.MergedProcesses | cli/release.go:267-306 | The process-type map after the loop: the keys of both maps; a type only in the update is taken verbatim, one only in the release is untouched; an empty update leaves the map as it was. |
| ReleaseUpdate.Updated | cli/release.go:254-307 | The release `runReleaseUpdate` creates: it always keeps the existing release's artifacts, and without `--clean` its id is cleared. |
| ReleaseUpdate.PanicsAsWritten | cli/release.go:261-303 | The merge as written panics only without `--clean` and only when a map of the existing release it writes into is nil; an env entry written into a nil release `Env` does panic. |
| ReleaseUpdate.MergeInto | cli/release.go:261-263 | The copy loop computes `Overlay`. |
| ReleaseUpdate.MergeProcess | cli/release.go:274-305 | The per-field merge of one existing process type computes `MergedProcess`. |
| ReleaseUpdate.MergeProcessTypes | cli/release.go:267-306 | The loop over the update's process types, in any iteration order, gives `MergedProcesses`: new types are inserted, existing ones are merged. |
| ReleaseUpdate.UpdateRelease | cli/release.go:254-307 | The merge block computes `Updated`, the corrected merge that allocates a nil map before writing into it. |
| ReleaseUpdate.CleanUpdateReplaces | cli/release.go:256-258 | With `--clean` the result is the update, carrying the existing release's artifact ids. |
| ReleaseUpdate.MergeCreatesNewRelease | cli/release.go:259-260 | Without `--clean` the id is cleared (so a new release is created) and the artifacts are kept. |
| ReleaseUpdate.MergeOverridesEnvAndMeta | cli/release.go:261-266 | The release `Env` and `Meta` are overridden key by key; no key is lost. |
| ReleaseUpdate.MergeKeepsAndAddsProcessTypes | cli/release.go:267-272 | The result has the process types of both releases. One only in the update is taken verbatim; one only in the release is untouched. |
| ReleaseUpdate.MergeProcessFields | cli/release.go:274-303 | For a process type in both releases:<br>- `Cmd`, `Entrypoint`, `Ports` and `Service` take the update's value exactly when it is non-empty;<br>- `Data`, `Omni`, `HostNetwork` and `Resurrect` become old-or-update;<br>- `Env` and `Resources` are overridden key by key. |
| ReleaseUpdate.MergeNeverClearsFlags | cli/release.go:286-300 | An update can turn a process type's boolean flags on, never off. |
| ReleaseUpdate.OverlayIdempotent | cli/release.go:261-263 | Copying the same map in twice is copying it once. |
| ReleaseUpdate.MergedProcessIdempotent | cli/release.go:274-303 | Merging the same process update twice is merging it once, and merging an update into itself changes nothing. |
| ReleaseUpdate.MergeIdempotent | cli/release.go:259-306 | Applying the same update file twice gives the same release as applying it once. |
| ReleaseUpdate.EmptyMergeOnlyClearsId | cli/release.go:259-306 | An update that sets no env, meta or process type only clears the id. |
| ReleaseUpdate.UpdateOfBareReleasePanics | cli/release.go:261-263 | A release without `Env` updated with one env entry panics as written; the corrected merge gives that entry. |
| Whitespace.TrimSpace | router/migrate_test.go:163-164 | The result has no whitespace at either end and is no longer than the input. |
| Whitespace.TrimSpaceOfPadded | router/migrate_test.go:90-91 | Whatever whitespace surrounds a text whose ends are not whitespace, trimming returns exactly that text. |
| Whitespace.TrimSpaceSplits | router/migrate_test.go:163-164 | Every text is its trimmed form with whitespace before and after it, with the inner text kept verbatim. |
| Whitespace.TrimSpaceIgnoresPadding | router/migrate_test.go:82-91 | Adding whitespace around any text does not change its trimmed form. |
| Whitespace.TrimSpaceIdempotent | router/migrate_test.go:163-164 | Trimming twice is trimming once. |
| TlsDedup.FindDigest | router/migrate_test.go:158-165 | The first certificate row with the digest, or none when no row has it. |
| TlsDedup.GetOrCreate | router/migrate_test.go:169-173 | Insert-or-get by digest:<br>- the existing row when its body is the same;<br>- otherwise an integrity violation;<br>- with no row for the digest, a new row (body, key, digest) appended.<br>The returned id holds the body and the digest. |
| TlsDedup.Visit | router/migrate_test.go:131-132 | One route's step of the dedup:<br>- a route without a certificate changes nothing;<br>- it fails only for a certificate route, with the integrity violation of its body's digest;<br>- existing rows are never changed or removed;<br>- a certificate route gets exactly one new link, to a row holding its trimmed body. |
| TlsDedup.Migrated | router/migrate_test.go:131-132 | The dedup over the route rows in table order: when it succeeds, the rows it started from are kept and new rows are only appended. |
| TlsDedup.CertRoutesMembers | router/migrate_test.go:152-157 | The routes that get links are exactly those with both a certificate and a key that are non-empty once trimmed. |
| TlsDedup.FirstKeyIsAKey | router/migrate_test.go:163-164 | The key stored for a body is the trimmed key of a route carrying that body. |
| TlsDedup.VisitKeepsConsistent | router/migrate_test.go:131-132 | One route's visit keeps the tables consistent with the routes scanned so far. Consistent means all of:<br>- links in scan order, pointing at the row of the route's body;<br>- digests that are the hash of the body;<br>- no digest twice;<br>- one row per distinct body, with the first route's key. |
| TlsDedup.MigratedErrorStops | router/migrate_test.go:131-132 | Once the scan has failed, the later routes do not change the outcome. |
| TlsDedup.MigratedConsistent | router/migrate_test.go:134-181 | A successful dedup from empty tables leaves them consistent with the whole route table. |
| TlsDedup.MigratedRowCounts | router/migrate_test.go:169-181 | There is one link per route with a certificate, and one certificate row per distinct trimmed body. |
| TlsDedup.MigratedDigests | router/migrate_test.go:158-165 | Every stored digest is the hash of the stored trimmed body, and no digest occurs twice. |
| TlsDedup.MigratedSucceeds | router/migrate_test.go:131-132 | When the hash separates the distinct bodies, the dedup succeeds. |
| TlsDedup.LinkedCertificateId | router/migrate_test.go:141-143 | The certificate id of a link for the route, or none when it has no link. |
| TlsDedup.JoinedCertificate | router/migrate_test.go:140-145 | The left join for one route: a certificate it returns is the row a link of that route points at; a route with no link joins nothing. |
| TlsDedup.MigratedLinksUnique | router/migrate_test.go:140-145 | After the dedup, no route has two links, so the single-row join reads one certificate per route (and the link count of 179-181 is one per certificate route). |
| TlsDedup.CertRoutesDistinct | router/migrate_test.go:179-181 | The routes that get links have pairwise distinct ids when the route table has. |
| TlsDedup.ConsistentLink | router/migrate_test.go:157-165 | In consistent tables, a route with a certificate is linked to the row with its body, the digest of its body, and the first key stored with it. |
| TlsDedup.ConsistentNoLink | router/migrate_test.go:152-156 | In consistent tables, a route without a certificate has no link. |
| TlsDedup.MigratedLink | router/migrate_test.go:157-165 | After the dedup, a certificate route's link points at the row with its body and digest. |
| TlsDedup.MigratedJoin | router/migrate_test.go:152-165 | The join for a route:<br>- absent without a certificate;<br>- otherwise its trimmed body and that body's digest;<br>- its own key when every route with that body has the same key. |
| TlsDedup.MigratedShareCertificate | router/migrate_test.go:169-173 | Routes with equal trimmed bodies are linked to one and the same certificate row. |
| TlsDedup.MigratedJoinsTo | router/migrate_test.go:157-165 | A route whose key agrees with every route of its body joins its own trimmed certificate, trimmed key and digest. |
| TlsDedup.ScenarioCounts | router/migrate_test.go:169-181 | In the test's scenario, the dedup succeeds with three certificate rows and four links. |
| TlsDedup.TlsObjectScenario | router/migrate_test.go:124-181 | In the test's scenario:<br>- three certificate rows and four links;<br>- route 5 joins nothing;<br>- routes 1 to 4 join their own trimmed certificate and key, with the digest of the trimmed certificate (route 4 that of route 3). |
| TlsDedup.ScenarioPaddingTrims | router/migrate_test.go:90-91 | The test's padding around the fourth route's certificate and key is removed by trimming. |
| TlsDedup.TlsObjectScenarioPadded | router/migrate_test.go:82-104 | With the test's exact padding on route 4, the dedup has three rows and four links, route 5 joins nothing, and route 4 joins route 3's certificate and key. |
| Migrations.ApplyOne | router/migrate_test.go:45-48 | One transaction:<br>- a recorded step is skipped;<br>- a failure (storage, or an integrity violation in the dedup) records nothing and reports that step's id;<br>- a commit appends the step's id to the ledger;<br>- route rows are never changed. |
| Migrations.ApplyOneFails | router/migrate_test.go:45-48 | A step fails exactly when it is unrecorded and either storage fails or it is the dedup and the dedup fails. |
| Migrations.ApplyAll | router/migrate_test.go:45-48 | The steps of a range in list order, the first failure ending the run: a failure comes from a non-empty range, is never a configuration error, and names a step that is not recorded. |
| Migrations.ApplyAllKeepsRoutes | router/migrate_test.go:175-177 | A migration run never changes the route rows, so their count and fields stay as inserted. |
| Migrations.ApplyAllExtendsLedger | router/migrate_test.go:45-48 | The ledger only grows, and after a run without error every step of the range is recorded. |
| Migrations.ApplyAllRecordsOnlyItsSteps | router/migrate_test.go:45-48 | A run records no id other than those of its own steps. |
| Migrations.ApplyAllRecordsInOrder | router/migrate_test.go:45-48 | For a fresh range of distinct steps, a run without error appends exactly their ids, in list order. |
| Migrations.ApplyAllStopsAtFailure | router/migrate_test.go:45-48 | A failing run stops at one step:<br>- every step before it committed;<br>- it is not recorded;<br>- the store is as the earlier steps left it. |
| Migrations.ApplyAllSplit | router/migrate_test.go:53-54 | Running `a + b` is running `a`, then `b` if `a` did not fail. So `migrateTo(4)` then `migrateTo(5)` is the run of the first five. |
| Migrations.ApplyAllSkipsApplied | router/migrate_test.go:45-48 | A range that is fully recorded already changes nothing. |
| Migrations.ReapplyIsNoOp | router/migrate_test.go:45-48 | Re-applying a committed range is a no-op, so the dedup creates no second set of rows. |
| Migrations.TlsStepConsistent | router/migrate_test.go:131-132 | The dedup step committed on the empty tables leaves them consistent with the route rows. |
| RouterStore.RouterDb.constructor | router/migrate_test.go:18-32 | A freshly set-up database has no routes, empty certificate tables and an empty ledger. |
| RouterStore.RouterDb.AddRoute | router/migrate_test.go:69-76 | An insert appends one route row and changes nothing else. |
| RouterStore.RouterDb.InsertRoutes | router/migrate_test.go:60-122 | The test's inserts append its routes in order and change nothing else. |
| RouterStore.RouterDb.LookupDigest | router/migrate_test.go:158-165 | The scan over the certificate rows finds the first row with the digest, or reports that none has it. |
| RouterStore.RouterDb.InsertOrGetCertificate | router/migrate_test.go:169-173 | The in-place insert-or-get does what `GetOrCreate` says: it appends only when the digest is new and touches no other table. |
| RouterStore.RouterDb.MigrateTlsObject | router/migrate_test.go:131-132 | The in-place scan over the routes leaves the certificate tables equal to `Migrated` of the tables it started from, or reports `Migrated`'s error. Routes and ledger are unchanged. |
| RouterStore.RouterDb.ImportRoute | router/migrate_test.go:131-132 | One route's step of the in-place scan does what `Visit` says and touches neither the routes nor the ledger. |
| RouterStore.RouterDb.ApplyMigration | router/migrate_test.go:45-48 | One step run in place is `ApplyOne`. On failure the tables are rolled back to what they were before the step. |
| RouterStore.RouterDb.Migrate | router/migrate_test.go:45-48 | `Migrate` of a list, run in place, gives the store and the error of `ApplyAll`. |
| RouterStore.TestMigrator.constructor | router/migrate_test.go:50-51 | The migrator starts at position 0 on the given database. |
| RouterStore.TestMigrator.MigrateTo | router/migrate_test.go:45-48 | Runs `migrations[id:target]` with `ApplyAll` and moves the position to `target` only when the run succeeds. A range that is not a slice of the list runs nothing and is reported as a configuration error. |
| RouterStore.StatementsOnlyRecord | router/migrate_test.go:53-54 | Schema migrations that do not fail only record their ids and leave the certificate tables as they were. |
| RouterStore.MigrateToFour | router/migrate_test.go:53-54 | `migrateTo(4)` on a fresh database succeeds. It leaves no routes, empty certificate tables and migration 5 unrecorded. |
| RouterStore.MigrateTlsStep | router/migrate_test.go:131-132 | Running the unrecorded dedup step alone on empty tables commits `Migrated` of the routes and records its id. |
| RouterStore.TestRoutesMigrate | router/migrate_test.go:60-181 | The dedup of the test's five routes succeeds and gives what the test asserts. |
| RouterStore.MigrateAroundInserts | router/migrate_test.go:50-132 | On any route rows: migrate to 4, insert, migrate to 5. Both runs succeed when the dedup does, the route rows are still the ones inserted, and the tables are that dedup. |
| RouterStore.TestMigrateTlsObject | router/migrate_test.go:50-182 | `TestMigrateTLSObject` end to end. Both `migrateTo` calls succeed. Afterwards the route rows are the five inserted, unchanged (148-150, 175-177); there are three certificate rows and four links; route 5 has no certificate; and routes 1 to 4 join their own trimmed certificate, key and digest. |

## Left out

- Argument parsing (docopt), the controller client calls, reading and JSON-decoding the update file, log output, and the yes/no prompt. Their results are inputs: the parsed flags, the fetched release and release list, and the prompt's answer.
- The bodies of the other `flynn release` sub-commands (`show`, `add`, `delete`, list). Only `runRelease`'s choice between them is modelled.
- SHA-256 and its hex encoding. The hash is a parameter `sha256: string -> Digest`, and lemmas that need distinct digests say so in their requires.
- Certificate generation (`tlsConfigForDomain`, pkg/tlscert). The generated certificates and keys are inputs. The scenario requires the three certificates to be distinct and non-empty once trimmed. The test itself checks only that consecutive ones differ (router/migrate_test.go:124-129).
- The router's migration list and its SQL, and pkg/postgres `Migrate`, are not part of this model. Steps 1 to 4 are schema statements whose only modelled effect is their ledger entry. Storage failures are an input set of failing migration ids.
- Route ids are the serial ids 1 to 5 that the inserts return. The test's joins on `parent_ref`, `service` and `domain` are covered by the route rows never changing (`Migrations.ApplyAllKeepsRoutes`).
- Concurrency and transaction isolation: steps run one at a time, and a failing step's writes are discarded as a whole.
- The migrator's `*C` is not modelled. A failing `c.Assert` ends the test, modelled as an error return that leaves the position where it was. A slice out of range panics in Go; it is modelled as a `ConfigurationError` that changes nothing.
- Go map iteration order: `MergeProcessTypes` picks the next key nondeterministically, so its contract holds for every order.
- RouterStore.RouterDb.MigrateTlsObject: on a digest collision the contract gives only the error, not the partly written tables. The enclosing `ApplyMigration` rolls those back.
- TlsDedup.GetOrCreate: the row identity is the digest of the trimmed body alone, so routes with equal bodies but different keys share the first route's key. Certificate rows are counted per distinct trimmed body, not per (body, key) pair, because the test hashes only the certificate (router/migrate_test.go:158-159).

## Findings

| source | as written | input that shows it | evidently intended | confidence | as-written member | corrected member |
|---|---|---|---|---|---|---|
| cli/release.go:261-266, 280-282, 301-303 | The merge writes `release.Env[key] = value`, `release.Meta[key] = value`, `release.Processes[procKey] = …`, and into an existing process type's `Env` and `Resources`. Every such map comes from JSON decoding and is nil when the release has none, and a write into a nil Go map panics. | A release created by `flynn release add <uri>` without `-f` has no `env`; `flynn release update` with `{"env": {"MY_VAR": "Hello World"}}` then writes into the nil `release.Env`. | Allocate the map before writing, so the update's entries are added. | not executed; depends on the controller returning the release without an `env` field | ReleaseUpdate.UpdateOfBareReleasePanics | ReleaseUpdate.UpdateRelease |
