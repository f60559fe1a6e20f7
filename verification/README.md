# Verified models of the ERP's protocols and rule engines

These Dafny modules model the parts of the ERP whose correctness does not show in any one function:
programs that run side by side, pairs of functions that must undo each other, and rules that are
written in one place and read in another.

| area | modules |
|---|---|
| migration runner | `Migrations` |
| cron time zones | `CronZone`, `CronPatch` |
| permissions | `Catalogue`, `Grants`, `Permissions`, `Reconcile`, `AuthUser`, `Access` |
| policies | `Values`, `Abac`, `PolicyCompiler`, `PolicyStore`, `Authorize` |
| background tasks, label printing, company profile | `WorkerLocks`, `LabelBridge`, `LabelOutcomes`, `CompanyProfile` |
| names, numbered inserts, sign-in keys | `Names`, `BulkInsert`, `Separators`, `AsciiText`, `SignInText`, `SignIn` |
| shared | `Wrappers`, `OrderedSets` |

**How the concurrent programs are modelled.** Each is a state and a total function `Step(state, who,
action)`; an action that cannot happen now changes nothing. `Run` folds any list of steps, so a lemma
about `Run` speaks of every interleaving, with crashes and failures at any point. The same steps are
then taken by a class whose methods follow the program text; what those methods ensure ties the code to
the machine and rules out a machine that only stands still. A method runs its own steps without a pause,
except where it takes the steps of others as a parameter (`WorkerLocks`, `LabelBridge`); everything else in
between is the machine's business.

**How the routes are modelled.** Each route is a method of a class that holds the rows it changes. Its
contract names a function of the old rows and the request (`Created`, `Changed`, `Patched`), covering
every refusal. When those functions accept, and what they store, is stated apart from them in terms of the
request alone (`PostStores`, `PatchStores`, `AcceptedIff`, `ChangeStores`), and further lemmas speak of any
run of such calls.

**What is assumed.** PostgreSQL transactions are atomic, an advisory lock belongs to a session and goes
with it, unique keys hold, and the pool lends a connection to one user at a time. A time zone is an
arbitrary function from instants to offsets in whole minutes. The catalogue data enters as a hypothesis, `Grants.WellFormed`: names of modules and resources
consist of a-z, 0-9 and `_`, codes of those characters and dots, no code occurs twice and none is
`system.admin.all`. As written, its 1872 codes satisfy that; eight of the extra codes (`documents.*` and
`service_desk.admin`) are not of the form module.resource.action.

## Where the code and its promises part

- The policy loop: a comment (`apps/api/src/middleware/authorize.ts:60`) announces deny by default. When
  no policy applies the loop falls through; a request proceeds exactly when the first policy that applies, if any
  does, is no deny (`Authorize.ProceedsIffNoDenyIsFirst`).
- The migration runner: a file is meant to commit together with its record. Migrations 0183, 0185,
  0188 to 0192 and 0226 hold their own `COMMIT`, so a crash right after it makes the next replica apply
  the file again. Each file is applied at most once in every interleaving exactly when no file commits
  by itself (`Migrations.AtMostOnceIffNoSelfCommit`).
- The label bridge: labels are said to stay queued until a bridge prints and acknowledges them. But the first
  acknowledgement to get through decides, from whichever pass (`LabelOutcomes.FirstWordDecides`), and a daemon says
  "failed" also when the answer to its "printed" is lost. A label is written off as damaged although the printer
  reported it done exactly when it did so at some step and the first word to get through was "failed"
  (`LabelOutcomes.WrittenOffThoughDoneIff`); each such report was then overtaken by a crash, refused, lost on the way,
  too late, or is still due (`FateOfReport`). The same holds of physical copies, which a failed call to the printer
  may leave behind without any acknowledgement being lost (`WrittenOffThoughCopiedIff`, `RejectedRoute`).
- Policy conditions: of several rows for one attribute of one kind, only the last is kept. A row is enforced on every
  request exactly when the kept row of its pair implies it, or some kept row can never be met
  (`PolicyCompiler.EnforcedIffKeptImplies`, `MeaningPreservedIff`).
- `EXISTS` asks for presence exactly when it carries no value, or true; with any other value it asks for absence
  (`PolicyCompiler.ExistsAsksForPresenceIff`).
- Activating a policy: `b(...) ?? !previous` never reaches its right side, since `b` always returns a boolean. A
  body without `is_active` deactivates, so it toggles exactly a policy that was active
  (`PolicyStore.AbsentFieldTogglesIffActive`).
- Cron jobs: presenting a schedule and saving it untouched is promised to change nothing. It does so exactly when
  the offset the time is shown with is the one it is saved with (`CronPatch.ResubmissionChangesNothingIff`). Which
  times move on a day with a change of offset is exact too (`CronZone.MovesIff`): in London on the last Sunday of
  October those of the hour before 01:00 UTC, an hour forward; in New York on the first Sunday of November those of
  the hour from 06:00 UTC, an hour back, and those before 04:00 UTC, shown on the evening before, an hour forward
  (`CronZone.LondonInOctober`, `NewYorkInNovember`).
- Sign-in keys: the clash check never compares a candidate's folded form with the folded form of an
  address, so a user name may fold to another account's address, and that address then resolves to two
  accounts. Sign-in is unambiguous exactly when that has not happened
  (`SignIn.UnambiguousIffFoldedApart`).
- Grants read raw at run time: for any list and any module.resource.action code, when the raw reading and the expansion
  agree is exact (`Grants.ReadingsAgreeIff`). A `module.*.action` pattern and an exclusion mean something at seed time
  only (`MidGrantIsSeedOnly`, `ExclusionIsSeedOnly`), and so does a resource wildcard over a two-part code, unless its
  action is called like its resource, as in `service_desk.admin` (`ShortCodeIsSeedOnlyIff`); `system.admin.all` means
  something at run time only. Stored grants are expanded codes, for which both readings agree.
- The company profile: clearing the memo during a request allows a second request beside it, and the older
  answer may become the memo after the clear (`CompanyProfile.ClearOpensASecond`); the next caller reads the API
  again exactly when no request open at the clear has answered well in between (`NextFetchRereadsIff`).
- Worker locks: a handler goes on when its database connection drops. Two handlers of
  one key run at once only when one has lost its session (`WorkerLocks.OneLiveHandlerPerKey`). Whatever happens while a
  handler runs, an attempt that is not past the lock yet comes to run beside it only after its session has died
  (`JoinedOnlyAfterDeath`); and at every point of every run where it has, and only there, others alone can bring that
  about (`CanBeJoinedIffSessionDead`). And the
  lock is said never to leak: a lock or unlock query that times out on the client's side (`apps/api/src/db.ts:24`) can
  leave the key locked on a pooled connection until the pool closes it. A key is taken exactly while an attempt holds
  it or that has happened (`WorkerLocks.KeyTakenIff`); without such time-outs none leaks (`NoKeyLeaks`).

## Model

| member | source | states |
|---|---|---|
| Migrations.StepKeepsInv | packages/db/src/migrate.js:20-61 | every step of every replica keeps the invariant: effects match records, exactly the lock holder is inside, and the holder's snapshot plus the files it has passed is the set recorded now |
| Migrations.RunKeepsInv | packages/db/src/migrate.js:20-61 | the invariant survives every interleaving with crashes and failures, and the record only ever grows |
| Migrations.OneReplicaAtATime | packages/db/src/migrate.js:20-24 | at most one replica is between lock and unlock |
| Migrations.EffectExactlyWhenRecorded | packages/db/src/migrate.js:39-54 | a file without a COMMIT of its own takes effect once if recorded and not at all otherwise, and no name is recorded twice |
| Migrations.RecordedImpliesEffect | packages/db/src/migrate.js:43-47 | no file, self-committing or not, is recorded without its effect |
| Migrations.NormalEndMeansComplete | packages/db/src/migrate.js:32-55 | once a replica has ended normally its whole list is recorded, whatever the others did meanwhile |
| Migrations.CanAlwaysComplete | packages/db/src/migrate.js:16-61 | from every reachable state, whoever crashed, failed or holds the lock, some continuation ends with a new replica's whole list recorded |
| Migrations.RecordedIsPrefix | packages/db/src/migrate.js:35-47 | with one common file list the recorded names are always a prefix of it |
| Migrations.EffectsAreRecords | packages/db/src/migrate.js:43-47 | when no file commits by itself, effects and records are the same sequence in every run |
| Migrations.SelfCommitAppliesTwice | packages/db/src/migrate.js:43-51 | for any file that commits by itself there is a run in which it takes effect twice |
| Migrations.AtMostOnceIffNoSelfCommit | packages/db/src/migrate.js:39-54 | all runs apply every file at most once if and only if no file commits by itself |
| Migrations.FailureIsFinal | packages/db/src/migrate.js:43-52 | over every run: once a file, its record or its commit fails, the replica never ends normally, and neither that step nor a later one of its own keeps an effect or a record |
| Migrations.RecordedByItsTransaction | packages/db/src/migrate.js:43-47 | over every run: a file enters the record only through one replica that ran it, then recorded it and, unless the file commits by itself, then committed, each without an error |
| Migrations.PassSucceeds | packages/db/src/migrate.js:39-54 | an undisturbed pass succeeds if and only if no unapplied file fails, at whichever statement, and then all files are applied |
| Migrations.PassLeavesIff | packages/db/src/migrate.js:39-54 | a pass records a file if and only if it comes to it and nothing fails there, or only the commit of a file that has committed by itself; the effect stays also if only the record of such a file fails |
| Migrations.Runner.Apply | packages/db/src/migrate.js:43-52 | one file, failing at its text, its record, its commit or nowhere: effect and record together, or neither and the loop is left; what a file committed by itself stays, and so does its record |
| Migrations.Runner.ApplyAll | packages/db/src/migrate.js:39-54 | the loop leaves exactly the records and effects of the unapplied files up to the first that fails, at whichever statement, in order |
| Migrations.Runner.Migrate | packages/db/src/migrate.js:16-61 | a whole pass is a run of the machine, leaves the records and effects that `Pass` says, and gives the lock back on success and on failure at any statement |
| CronZone.SearchUtc | apps/api/src/routes/adminCron.ts:308-314 | the loop computes the two-pass formula, wrapped at midnight |
| CronZone.TwoPassesReachEveryTimeThatOccurs | apps/api/src/routes/adminCron.ts:304-314 | with at most one change of offset around today, by any amounts, the instant found reads as the wanted wall-clock time if and only if any instant does |
| CronZone.TwoChangesDefeatTwoPasses | apps/api/src/routes/adminCron.ts:304-314 | a witness that the hypothesis of one change is needed: two changes close together can defeat two passes |
| CronZone.RoundTripAcrossChange | apps/api/src/routes/adminCron.ts:296-314 | for any zone, a time typed and stored is presented as typed if and only if the offset applied and the offset shown agree modulo a day |
| CronZone.SavingAgainAcrossChange | apps/api/src/routes/adminCron.ts:316-321 | for any zone, a stored time that is presented and saved again stays if and only if the offset shown and the offset applied agree modulo a day |
| CronZone.MovesIff | apps/api/src/routes/adminCron.ts:316-321 | with one change of offset, by any amounts less than a day apart, exactly which stored times move when shown and saved again, shown times of neighbouring days included |
| CronZone.MovesWithinTheDayIff | apps/api/src/routes/adminCron.ts:316-321 | for times shown on the same day: the last stretch before a clock goes back whose wall-clock minute is past the change, or the first stretch after whose wall-clock minute is before it |
| CronZone.LondonInOctober | apps/api/src/routes/adminCron.ts:316-321 | offsets 60 then 0 with the change at 01:00 UTC: exactly the hour before moves, an hour forward |
| CronZone.NewYorkInNovember | apps/api/src/routes/adminCron.ts:316-321 | offsets -240 then -300 with the change at 06:00 UTC: exactly the hour after moves, an hour back, and the times before 04:00, an hour forward |
| CronZone.LocalThenUtc | apps/api/src/routes/adminCron.ts:296-314 | under a constant offset, storing then presenting is the identity on minutes of the day |
| CronZone.UtcThenLocal | apps/api/src/routes/adminCron.ts:296-314 | under a constant offset, presenting then storing is the identity on minutes of the day |
| CronZone.ParseThenFormat | apps/api/src/routes/adminCron.ts:288-301 | printing what was parsed from HH:MM gives the text back |
| CronZone.ConversionsAreInverseIff | apps/api/src/routes/adminCron.ts:296-314 | on every HH:MM and for any zone, each composition is the identity if and only if its two offsets agree |
| CronZone.ConversionsAreInverse | apps/api/src/routes/adminCron.ts:296-314 | while the offset is constant over the window, both compositions are the identity on every HH:MM, across midnight |
| CronZone.WallClockIsAhead | apps/api/src/routes/adminCron.ts:296-314 | under a constant offset a time is shown that much later and stored that much earlier, modulo a day |
| CronZone.ClockTexts | apps/api/src/routes/adminCron.ts:236 | which minutes some texts stand for, and that 24:00, 12:60 and 9:00 are none |
| CronZone.KampalaTexts | apps/api/src/routes/adminCron.ts:296-314 | three hours ahead, 06:00 UTC is shown as 09:00, and 01:00 is stored as 22:00 |
| CronPatch.AcceptedChangeIsWellFormed | apps/api/src/routes/adminCron.ts:116-172 | whatever the row held, an accepted change stores a known type and zone, a time where one is needed, and only the fields its type reads |
| CronPatch.AcceptedIff | apps/api/src/routes/adminCron.ts:116-167 | exactly which changes are accepted: kind, zone, time, both days and interval, each the given one or else the stored one |
| CronPatch.AcceptedScheduleIsTheGivenOne | apps/api/src/routes/adminCron.ts:116-172 | an accepted change stores the kind, zone, day and interval it gives, and keeps the stored ones where it gives none |
| CronPatch.AcceptedTimeIsTheGivenOne | apps/api/src/routes/adminCron.ts:128-143 | a time given is stored in UTC of the new zone, a cleared one is gone, and one not given is the stored one restated from its old zone |
| CronPatch.AcceptedNextRun | apps/api/src/routes/adminCron.ts:174-200 | a pinned run is taken as it is; otherwise a body that names any schedule field, or wakes a stale job, gets a new run, and any other keeps the stored one |
| CronPatch.AcceptedDescription | apps/api/src/routes/adminCron.ts:113-173 | flag, name, description and params are the given ones, or else the stored ones |
| CronPatch.PresentedIsWallClock | apps/api/src/routes/adminCron.ts:322-330 | in a zone that is ahead by a constant a job is shown at its wall-clock time, an unknown zone counting as Kampala, and nothing else changes |
| CronPatch.ResubmissionChangesNothingIff | apps/api/src/routes/adminCron.ts:116-172 | where zone names carry no white space, posting back a well-formed schedule as presented is accepted, can only move the stored time, and changes no column if and only if the two offsets agree |
| CronPatch.ResubmissionChangesNothing | apps/api/src/routes/adminCron.ts:116-172 | so it changes no schedule column while the offset of the job's zone is constant over the window |
| CronPatch.ResubmissionMovesInOctober | apps/api/src/routes/adminCron.ts:316-321 | with offsets 60 then 0 and the change at 01:00 UTC, a job stored at 00:30 is resaved at 01:30 |
| CronPatch.ZoneChangeKeepsWallClockIff | apps/api/src/routes/adminCron.ts:120-143 | changing only the zone is accepted and keeps the presented time, and all else presented, if and only if that time reads back in the new zone |
| CronPatch.SwitchedOnIsNotDue | apps/api/src/routes/adminCron.ts:174-200 | with a scheduler that never looks back, a job that an unpinned change switches on is not already due |
| CronPatch.CronJob.Patch | apps/api/src/routes/adminCron.ts:103-223 | the handler refuses with the first failing check and leaves the row, or writes name, description, params, flag, normalised schedule and next run |
| Catalogue.BuildPermissions | packages/db/src/catalogue.js:556-576 | the nested loops list all declared permissions and then the extra ones |
| Catalogue.BuildsWhatIsDeclared | packages/db/src/catalogue.js:556-571 | a permission is listed if and only if some module declares that resource and action |
| Catalogue.BuildIndex | packages/db/src/catalogue.js:584-591 | the two lookup tables hold, under each module and each resource, exactly its codes and no other keys |
| Catalogue.Apply | packages/db/src/catalogue.js:592-617 | one pattern adds or removes exactly the codes it stands for, without duplicates |
| Catalogue.ExpandGrants | packages/db/src/catalogue.js:583-629 | the result is the union of the includes minus the union of the excludes, without duplicates |
| Grants.HitsIsRunTimeOrMid | packages/db/src/catalogue.js:592-617 | for any pattern whatever, the codes it stands for are those the run-time check accepts for it plus those of module.*.action |
| Grants.CanIsRunTimeMatch | apps/api/src/middleware/authorize.ts:7-20 | the run-time check passes a module.resource.action code if and only if a grant is one of its four forms or the administrator's pass |
| Grants.ExpansionByPattern | packages/db/src/catalogue.js:618-628 | a code is in the expansion if and only if some include and no exclude stands for it |
| Grants.ReadingsAgreeIff | apps/api/src/middleware/authorize.ts:7-20 | for any grants and any module.resource.action code, the raw check and the expansion agree if and only if: no exclusion applies where a form the check tries is listed; elsewhere, the administrator's pass is listed just in case an unexcluded module.*.action pattern is |
| Grants.PlainGrantsAgree | apps/api/src/middleware/authorize.ts:7-20 | so they agree for grants without exclusions, module.*.action patterns and system.admin.all |
| Grants.ExpansionSurvivesRunTime | apps/api/src/middleware/authorize.ts:7-20 | on a stored expansion the check accepts exactly the codes of the expansion, for any grants |
| Grants.ExpansionIgnoresOrder | packages/db/src/catalogue.js:618-628 | order and repetition of grants do not matter |
| Grants.ExpansionIsIdempotent | packages/db/src/catalogue.js:583-629 | expanding an expansion changes nothing, and it holds catalogue codes only |
| Grants.MidGrantIsSeedOnly | apps/api/src/middleware/authorize.ts:14-19 | a raw module.*.action grant expands to a code that the check refuses |
| Grants.ExclusionIsSeedOnly | apps/api/src/middleware/authorize.ts:13-19 | a raw exclusion is ignored by the check |
| Grants.ShortCodeIsSeedOnlyIff | apps/api/src/middleware/authorize.ts:14-19 | a two-part code expands from its resource wildcard, and the check tries that wildcard if and only if the action is called like the resource |
| Permissions.CanOnConcreteCodes | apps/api/src/middleware/authorize.ts:7-20 | over concrete codes the check is membership |
| Permissions.CanIff | apps/api/src/middleware/authorize.ts:7-20 | for any grants: which five texts let a permission of three pieces pass |
| Permissions.CanWithoutDotIff | apps/api/src/middleware/authorize.ts:14-19 | a permission without a dot looks for a resource named undefined |
| Reconcile.SeedRolePermissionCodes | packages/db/src/seed-data.js:10-44 | a role's codes are its expansion and those of its position, each once |
| Reconcile.PositionCodesIff | packages/db/src/seed-data.js:10-44 | which roles get which code for their position, code by code and role by role |
| Reconcile.StatementUpserts | packages/db/src/seed-data.js:99-118 | executing the numbered six-column statement upserts exactly the permissions it was built from |
| Reconcile.UpsertAllTable | packages/db/src/seed-data.js:98-119 | the upsert adds exactly the missing codes as no system permissions, keeps every known id and system flag and all other rows, ids stay unique, and the sequence moves on by one for each permission |
| Reconcile.UpsertConverges | packages/db/src/seed-data.js:98-119 | upserting the same catalogue again changes no row |
| Reconcile.StatementGrants | packages/db/src/seed-data.js:140-146 | the bulk insert of a role carries exactly its pairs, none twice |
| Reconcile.RegrantAllHeld | packages/db/src/seed-data.js:134-148 | after the loop a listed role holds exactly its codes' permissions, any other role what it held |
| Reconcile.RbacDb.UpsertPermissions | packages/db/src/seed-data.js:98-119 | the loop sends exactly the batches of 200 of the catalogue, to the effect of one upsert of it all |
| Reconcile.RbacDb.ReplaceGrants | packages/db/src/seed-data.js:139-147 | delete and bulk insert leave exactly the given permissions for the role, without a key conflict, and all other rows |
| Reconcile.RbacDb.ReconcileRbac | packages/db/src/seed-data.js:97-150 | the whole pass leaves the upserted table and the regranted roles and returns how many permissions it upserted and granted |
| Reconcile.CatalogueRolesExact | packages/db/src/seed-data.js:134-148 | from any prior contents the last row of a catalogue role in the tenant, so its only one where codes are unique, ends with exactly the permissions of the codes computed for the role |
| Reconcile.RoleIdsAreLastRows | packages/db/src/seed-data.js:127-132 | a code has an entry if and only if the tenant has a row of it, and the entry is the last such row |
| Reconcile.CountedIsHeld | packages/db/src/seed-data.js:133-149 | the count returned is the number of pairs held in the end by the rows that reconciliation writes |
| Reconcile.OtherRolesUntouched | packages/db/src/seed-data.js:127-148 | roles of other tenants and roles not in the catalogue keep theirs |
| Reconcile.ReconcileConverges | packages/db/src/seed-data.js:94-150 | a second reconciliation changes no permission row and no grant |
| AuthUser.LoadPermissions | apps/api/src/middleware/auth.ts:55-70 | the loops compute roles and delegations joined, then every override in order, without duplicates |
| AuthUser.LastOverrideDecides | apps/api/src/middleware/auth.ts:65-70 | a code is held as its last override says, or as roles and delegations say if none names it |
| AuthUser.OverrideOrderIrrelevant | apps/api/src/middleware/auth.ts:65-70 | with one override per permission the order of rows does not matter |
| AuthUser.RevokeDeniesUnlessWider | apps/api/src/middleware/auth.ts:60-70 | a standing revoke denies its permission if and only if no wider code is stored |
| AuthUser.ActiveRevokeWins | apps/api/src/middleware/auth.ts:60-70 | over concrete codes a standing revoke always denies, whatever roles and delegations grant |
| AuthUser.OtherPermissionsUnaffected | apps/api/src/middleware/auth.ts:65-70 | an override changes the check for no other permission |
| Access.HeldIffSeeded | packages/db/src/seed-data.js:134-148 | after reconciliation the last row of a catalogue role in the tenant holds a code in the database if and only if the role's grants expand to it or its position has it |
| Access.HeldIffGrantedBy | packages/db/src/seed-data.js:127-148 | after reconciliation any role row holds a code if and only if the catalogue computes it for the role or, for a row reconciliation does not write, it held the code before |
| Access.PassesIff | apps/api/src/middleware/auth.ts:55-70 | end to end from any database and for any set of roles: a user passes the check if and only if the last override on the permission grants it or, none naming it, a catalogue role computes it, another role kept it or a delegation has it, given that kept, delegated and overridden codes are no wildcards |
| Abac.CondMatch | apps/api/src/abac.ts:17-75 | the early-leaving loop over operators holds if and only if every operator holds, in whatever order |
| Abac.AttrMatches | apps/api/src/abac.ts:77-86 | a map of conditions matches if and only if all its conditions hold |
| Abac.CompoundIsConjunction | apps/api/src/abac.ts:10-12 | a lower and an upper bound in one object are both enforced: exactly the numbers between them pass |
| Abac.OperatorsByValue | apps/api/src/abac.ts:26-62 | `$eq`, `$ne`, `$in`, `$outside`, `$not_in`, `$exists` and `$missing` in terms of which document equals a value, without conversion of types |
| Abac.OperatorsInOrder | apps/api/src/abac.ts:39-50 | `$gt`, `$gte`, `$lt` and `$lte` are the comparisons of real arithmetic; NaN meets none |
| Abac.OrderNeedsNumbers | apps/api/src/abac.ts:39-50 | they hold between numbers only |
| Abac.BetweenIsARange | apps/api/src/abac.ts:51-56 | `$between` takes in both bounds, null and flags counting as 0 and 1, and a bound that is no number keeps everything out |
| Abac.RefAsksForItsValue | apps/api/src/abac.ts:63-65 | `$ref` asks for the very value its reference leads to |
| Abac.UnknownOperatorNeverHolds | apps/api/src/abac.ts:66-68 | an operator that holds is one of the thirteen |
| Abac.BareConditions | apps/api/src/abac.ts:73-74 | a bare value asks for itself and an array for one of its items |
| PolicyCompiler.CompileConditions | apps/api/src/routes/admin.ts:986-1032 | the loop yields the condition rows and their compiled maps, or the first refusal |
| PolicyCompiler.ParsedRowByRow | apps/api/src/routes/admin.ts:996-1009 | a list is accepted if and only if each of its conditions is, and then row by row; otherwise the refusal is that of the first condition refused |
| PolicyCompiler.RefusedIff | apps/api/src/routes/admin.ts:994-1003 | which conditions are refused and why: kind, operator and attribute are looked at in this order |
| PolicyCompiler.PostedConditionAsks | apps/api/src/routes/admin.ts:998-1023 | from the posted names to the request: which source each of the three kinds reads, and what each of the nine operators demands of the value there |
| PolicyCompiler.TargetMeansIffFaithful | apps/api/src/routes/admin.ts:1013-1023 | an operator object, interpreted, means its row for every value if and only if the row is no EXISTS with a value of its own |
| PolicyCompiler.ExistsAsksForPresenceIff | apps/api/src/routes/admin.ts:1021 | EXISTS asks for presence if and only if its value is null or true |
| PolicyCompiler.CompilationKeepsLastOfEachPair | apps/api/src/routes/admin.ts:986-1032 | for any rows, the compiled maps hold for a request if and only if it meets what the last row of every (kind, attribute) pair asks |
| PolicyCompiler.CompilationPreservesMeaning | apps/api/src/routes/admin.ts:986-1032 | without repeated pairs and EXISTS with a value of its own, the compiled maps mean the conjunction of all rows |
| PolicyCompiler.EnforcedIffKeptImplies | apps/api/src/routes/admin.ts:1012-1023 | for any rows, a row is enforced on every request if and only if the kept row of its pair implies it or some kept row can never be met |
| PolicyCompiler.MeaningPreservedIff | apps/api/src/routes/admin.ts:986-1032 | for any rows whose kept ones can be met, the compiled maps mean the conjunction of all rows if and only if every row is implied by the kept one of its pair |
| PolicyCompiler.EmptyOnlyFromNoRows | apps/api/src/routes/admin.ts:988-1032 | the maps are unconditional if and only if there are no rows |
| PolicyStore.Admin.WritePolicyConditions | apps/api/src/routes/admin.ts:986-1032 | rows and maps of one policy are replaced together, or a refusal leaves both |
| PolicyStore.SlugIsCode | apps/api/src/routes/admin.ts:1035 | a stored code has only a-z, 0-9 and underscores, and is empty only for empty text |
| PolicyStore.SlugKeepsIffCode | apps/api/src/routes/admin.ts:1035 | the rewriting leaves a text as it is if and only if it is such a code |
| PolicyStore.SlugJoinsWithUnderscore | apps/api/src/routes/admin.ts:1035 | a whole run of other characters becomes one underscore |
| PolicyStore.Admin.Create | apps/api/src/routes/admin.ts:1034-1063 | creation stores the policy under its rewritten code with its compiled maps, or refuses and leaves the table, the sequence moving on after the INSERT either way, and keeps the store sound |
| PolicyStore.PostIsAcceptedIff | apps/api/src/routes/admin.ts:1035-1045 | exactly which bodies put a policy into the table |
| PolicyStore.PostStores | apps/api/src/routes/admin.ts:1035-1053 | an accepted body is stored with the effect, priority, code, name, description and conditions it gives, allow and 100 by default, and active; no other row changes |
| PolicyStore.Admin.Patch | apps/api/src/routes/admin.ts:1065-1118 | a change applies whole or not at all, although fields are written before conditions are checked |
| PolicyStore.PatchStores | apps/api/src/routes/admin.ts:1065-1106 | which changes are accepted, and that each field is then the given one or else the stored one; a refused one moves nothing |
| PolicyStore.AbsentFieldTogglesIffActive | apps/api/src/routes/admin.ts:1124 | the fallback to the stored flag is never reached: an absent field deactivates, so it toggles if and only if the policy was active |
| PolicyStore.Admin.Activate | apps/api/src/routes/admin.ts:1120-1135 | only the flag of one known policy changes, to what b() makes of the body field |
| PolicyStore.EveryRunIsSound | apps/api/src/routes/admin.ts:1034-1135 | over every run of the routes maps equal the compilation of the rows and every deny has a condition |
| PolicyStore.NoWrittenPolicyIsSkipped | apps/api/src/middleware/authorize.ts:114-119 | the engine's skip of unconditional denies never silences a policy written through the routes |
| PolicyStore.WrittenPolicyMeansItsRows | apps/api/src/middleware/authorize.ts:110-128 | a written policy applies to a request if and only if it meets what the last row of each of its pairs asks |
| PolicyStore.EngineFollowsStore | apps/api/src/middleware/authorize.ts:61-128 | over every run of the routes, the verdict over the active policies in (priority, id) order is the effect of the first whose kept rows are met, and without one the request proceeds |
| PolicyStore.PostedPolicyDecides | apps/api/src/middleware/authorize.ts:110-128 | from the posted body to the verdict: until a change names it, where the policy is the first active one to be met the request is denied in its name if and only if the body asked for deny |
| Authorize.PolicyLoop | apps/api/src/middleware/authorize.ts:110-128 | the loop with continue and break computes the declarative verdict |
| Authorize.FirstToApplyDecides | apps/api/src/middleware/authorize.ts:110-128 | the verdict is the effect of the first policy that applies |
| Authorize.ProceedsIffNoDenyIsFirst | apps/api/src/middleware/authorize.ts:110-128 | a request proceeds if and only if the first policy that applies, if any does, is no deny |
| Authorize.NoPolicyMeansProceed | apps/api/src/middleware/authorize.ts:110-128 | when none applies the request proceeds |
| Authorize.RowWithoutSay | apps/api/src/middleware/authorize.ts:114-124 | an unconditional deny or a policy that does not match can be removed anywhere |
| Authorize.RowsBehindHaveNoSay | apps/api/src/middleware/authorize.ts:120-127 | nothing behind the first policy that applies matters |
| Authorize.PrefixedRefReadsItsSource | apps/api/src/middleware/authorize.ts:99-107 | a reference with a known prefix reads that source and no other |
| Authorize.PlainRefFallsBack | apps/api/src/middleware/authorize.ts:108 | a plain reference has the value of the first source that has one: resource, then subject, then environment |
| Authorize.ResourceNamesThePermission | apps/api/src/middleware/authorize.ts:81-87 | the resource attributes name the permission's pieces unless the route overrides them |
| Authorize.SubjectNamesTheUser | apps/api/src/middleware/authorize.ts:69-80 | which field of the user each identity attribute reads, the user's own attributes being unable to replace it; any other attribute is the user's own |
| Authorize.EachMapReadsItsSource | apps/api/src/middleware/authorize.ts:94-124 | a condition filed under subject, resource or environment is tested on that source of the request |
| Authorize.RefReadsItsSource | apps/api/src/middleware/authorize.ts:99-107 | and a `$ref` with such a prefix compares with the value there |
| Authorize.RequirePermission | apps/api/src/middleware/authorize.ts:26-149 | each refusal occurs exactly under its condition, in order, a denial names the policy that decides, and a request is allowed if and only if all gates pass for the first permission held |
| WorkerLocks.StepKeepsInv | apps/api/src/services/singleFlight.ts:38-79 | every step, time-outs and closed connections included, keeps: no shared sessions, holders hold their key, every lock is on a live session and held or stuck |
| WorkerLocks.HandlersExcludeEachOther | apps/api/src/worker.ts:86-116 | while sessions end only with their process, at most one handler per key runs, over deliveries, re-deliveries and timers |
| WorkerLocks.OneLiveHandlerPerKey | apps/api/src/worker.ts:86-116 | two handlers under one key overlap only if one has lost its session |
| WorkerLocks.JoinedOnlyAfterDeath | apps/api/src/services/singleFlight.ts:42-61 | from every reachable state and whatever then happens while a handler runs, the loss of its session included, an attempt that is not past the lock yet comes to run under its key only after that session has died |
| WorkerLocks.CanBeJoinedIffSessionDead | apps/api/src/services/singleFlight.ts:42-61 | in every reachable state, others alone can bring an attempt that is not past the lock yet to run beside a handler if and only if the handler's session is dead |
| WorkerLocks.KeyTakenIff | apps/api/src/services/singleFlight.ts:38-61 | a key is taken if and only if an attempt with a live session is between lock and release, or a time-out left it on an open session |
| WorkerLocks.NoKeyLeaks | apps/api/src/services/singleFlight.ts:13-16 | without time-outs a key is taken if and only if an attempt holds it, whatever crashes or fails |
| WorkerLocks.SkippedNeverStarted | apps/api/src/worker.ts:93-97 | an attempt that was skipped, or failed to get an answer, never called the handler |
| WorkerLocks.OnlyTheHolderFrees | apps/api/src/services/singleFlight.ts:48-57 | no step of another attempt takes a holder's key away |
| WorkerLocks.Database.TryAcquire | apps/api/src/services/singleFlight.ts:38-61 | the lock is won if and only if the key is free or already the session's own, which then holds it once more; losing, a failed connection and a time-out leave exactly what they say |
| WorkerLocks.Database.SingleFlight | apps/api/src/services/singleFlight.ts:69-79 | undefined comes back if and only if the lock was answered and not granted; otherwise the handler runs once and its own value or error comes back, unless the release fails, and the key is free afterwards unless the unlock query itself does nothing |
| WorkerLocks.Worker.RunTask | apps/api/src/worker.ts:86-116 | unknown task, failed lock, skip, success, failure and failed release each leave exactly their record, result and locks: a skip comes back if and only if the lock was answered and not granted, the handler's own error is stored and rethrown, whatever others do and even if the session is lost meanwhile |
| LabelBridge.StepKeepsInv | apps/api/scripts/niimbot-bridge.ts:80-115 | every step of every daemon keeps the books of passes, copies and acknowledgements |
| LabelBridge.PrintedCameOut | apps/api/scripts/niimbot-bridge.ts:93-101 | a label marked printed came out at least once, in the pass that fetched and marked it |
| LabelBridge.CopiesAtMostPolls | apps/api/scripts/niimbot-bridge.ts:13-16 | over every run with crashes a label has at most as many copies as polls that returned it |
| LabelBridge.LeavesByItsAck | apps/api/scripts/niimbot-bridge.ts:94-112 | a label leaves the queue only by an acknowledgement from a pass that fetched it |
| LabelBridge.WritingPassSawItDoneIffAckLost | apps/api/scripts/niimbot-bridge.ts:96-112 | a damaged label was written off at some step of the run, and the printer had reported it done in the pass that did so if and only if that pass got no answer to its own printed acknowledgement at some step |
| LabelBridge.ComesToAckLostIff | apps/api/scripts/niimbot-bridge.ts:100-111 | a daemon comes to report a row it has printed as failed if and only if its own printed acknowledgement gets no answer; a refusal is an answer |
| LabelOutcomes.FirstWordDecides | apps/api/scripts/niimbot-bridge.ts:101-112 | over every run the first acknowledgement of a label to get through makes it printed or damaged for good, and without one it stays as it was |
| LabelOutcomes.WrittenOffThoughDoneIff | apps/api/scripts/niimbot-bridge.ts:96-112 | over every run and all passes, a label is damaged although the printer reported it done if and only if it did so at some step and the first acknowledgement to get through said failed |
| LabelOutcomes.WrittenOffThoughCopiedIff | apps/api/scripts/niimbot-bridge.ts:63-78 | the same for physical copies, including those of calls that reported an error |
| LabelOutcomes.FateOfReport | apps/api/scripts/niimbot-bridge.ts:100-112 | unless a label was marked printed first, the acknowledgement after each report of the printer was overtaken by a crash, refused, lost, too late, or is still due |
| LabelOutcomes.CrashRoute | apps/api/scripts/niimbot-bridge.ts:13-16 | from any state with an acknowledgement due, a crash and a failing next pass write the label off |
| LabelOutcomes.RefusedRoute | apps/api/scripts/niimbot-bridge.ts:101 | from any such state at the last row, a refused acknowledgement and a failing next pass write it off |
| LabelOutcomes.LostRoute | apps/api/scripts/niimbot-bridge.ts:101-111 | from any such state, an acknowledgement lost on the way writes it off |
| LabelOutcomes.RejectedRoute | apps/api/scripts/niimbot-bridge.ts:75-77 | from any state about to send, a call that prints and reports an error writes the label off with a copy made |
| LabelOutcomes.RoutesAreOpen | apps/api/scripts/niimbot-bridge.ts:80-115 | runs from a single queued label reach the states these routes start from |
| LabelBridge.EachRowSettled | apps/api/scripts/niimbot-bridge.ts:93-114 | in a pass with no other daemon at work every row is settled by its own calls alone |
| LabelBridge.OneCopyPerRow | apps/api/scripts/niimbot-bridge.ts:63-78 | a pass prints each fetched label once or not at all, and no other |
| LabelBridge.Daemon.HandleRow | apps/api/scripts/niimbot-bridge.ts:96-113 | which requests a row makes, in order: an answered printed acknowledgement, refused or not, is the last; whatever others do before each call, a row makes its own copy or none and is out of the queue when its acknowledgement gets through; undisturbed, from any status, it ends as its calls and the spool's rule come out, a refusal leaving it as it was |
| LabelBridge.Daemon.ProcessQueue | apps/api/scripts/niimbot-bridge.ts:80-115 | a refused poll only renews the token; a list is worked off whole while others act before every call: the pass makes exactly its own requests and copies, and a row whose acknowledgement gets through is out of the queue |
| CompanyProfile.SingleFlight | apps/web/src/company.tsx:51-71 | with no clear during a request at most one request is open, in every interleaving |
| CompanyProfile.OpenAtMostCutPlusOne | apps/web/src/company.tsx:51-77 | in general, at most one more than the clears that came during a request |
| CompanyProfile.ClearOpensASecond | apps/web/src/company.tsx:74-77 | after such a clear the next caller makes another request beside the open one |
| CompanyProfile.MemoIsAGoodAnswer | apps/web/src/company.tsx:56-64 | the memo is a good answer over the fallback, never a failed one |
| CompanyProfile.MemoStopsRequests | apps/web/src/company.tsx:52-53 | from the memo on no request is made until a clear |
| CompanyProfile.MemoStays | apps/web/src/company.tsx:52-67 | without a clear during a request the memo never changes again |
| CompanyProfile.FailureIsRetried | apps/web/src/company.tsx:57-67 | after a failed request the next caller makes a new one |
| CompanyProfile.NextFetchRereadsIff | apps/web/src/company.tsx:73-77 | after a clear the next caller reads the API again if and only if no request open at the clear has answered well in between |
| CompanyProfile.CompanyModule.Fetch | apps/web/src/company.tsx:51-71 | the memo at once, or the shared open request, made only if there is none |
| CompanyProfile.CompanyModule.Answer | apps/web/src/company.tsx:55-67 | all who wait get the answer's values over the fallback's, or the fallback itself on a bad answer, and only a good one becomes the memo |
| CompanyProfile.CompanyModule.ClearCache | apps/web/src/company.tsx:74-77 | memo and shared request are dropped, open requests stay open |
| Names.SnakeRoundTrip | apps/api/src/utils.ts:69-71 | a column name survives the round trip if and only if it has no A-Z |
| Names.CamelRoundTrip | apps/api/src/utils.ts:69-71 | a property name survives the round trip if and only if no underscore precedes a-z |
| Names.SameCamelIffSameSnake | apps/api/src/utils.ts:69-71 | two names collide in one form if and only if they collide in the other |
| Names.Lower | apps/api/src/utils.ts:69 | a capital goes to the letter at its place in the small alphabet, and nothing else changes |
| Names.Upper | apps/api/src/utils.ts:71 | a small letter goes to the letter at its place in the capital alphabet, and nothing else changes |
| Names.ConversionsKeepLetters | apps/api/src/utils.ts:69-71 | both conversions keep a name letter for letter, apart from case and underscores |
| Names.ToCamelRow | apps/api/src/utils.ts:73-77 | the loop builds the object that its columns determine, later ones overwriting |
| Names.CamelRowKeepsColumns | apps/api/src/utils.ts:73-77 | no column is lost if and only if no two share a snake_case form |
| Names.LastColumnWins | apps/api/src/utils.ts:73-77 | a property holds the value of the last column that goes by its name |
| Names.CamelRowKeepsValues | apps/api/src/utils.ts:73-77 | and then every property holds its column's value |
| Names.LowerCaseColumnsNeverMerge | apps/api/src/utils.ts:73-77 | lower-case columns never merge and keep their values |
| BulkInsert.NumberingCounts | packages/db/src/seed-data.js:79-85 | read in order the placeholders are 1 to rows times columns, none repeated |
| BulkInsert.FlattenIndex | packages/db/src/seed-data.js:79-82 | cell (i, j) is parameter i times width plus j |
| BulkInsert.NumberingBindsRows | packages/db/src/seed-data.js:79-85 | every placeholder stands for the value of its own cell |
| BulkInsert.LookupIff | packages/db/src/seed-data.js:79-81 | a record gives each of its names its own value, and any other name undefined |
| BulkInsert.BulkInsert | packages/db/src/seed-data.js:75-92 | the statement sent carries, cell by cell, the given rows in the first record's columns; no rows, no statement |
| BulkInsert.BatchesCover | packages/db/src/seed-data.js:100-101 | the batches that the loop sends cover every element once and in order, none empty, all but the last full |
| SignIn.Directory.CreateUser | apps/api/src/routes/admin.ts:253-289 | an account is stored under the next key with its normalised identifiers or refused for the first failing check, and keys stay distinct |
| SignIn.Directory.PatchUser | apps/api/src/routes/admin.ts:430-457 | both identifiers change or neither, and keys stay distinct |
| SignIn.ClashesIff | apps/api/src/routes/admin.ts:79-94 | a candidate clashes with an account if and only if it is its address or user name up to case, or folds to what the user name folds to |
| SignIn.EmailShapeIff | apps/api/src/routes/admin.ts:257 | which texts are addresses: a local part, one @, and a domain with a dot inside, without white space |
| SignIn.CreateIsAcceptedIff | apps/api/src/routes/admin.ts:253-272 | exactly which new accounts are accepted |
| SignIn.CreatedIsFound | apps/api/src/routes/admin.ts:253-289 | an accepted account is stored with the address given, trimmed and in lower case, and the user name given, or else the part of the address before the @; sign-in finds it under both |
| SignIn.ChangeStores | apps/api/src/routes/admin.ts:430-457 | which changes are accepted, and that they store the identifiers given, an address only if it differs in more than case; a refused one moves nothing |
| SignIn.ChangedIsFound | apps/api/src/routes/admin.ts:430-457 | sign-in finds a changed account under the user name given and, where lower-casing twice is lower-casing once, under the address given |
| SignIn.EveryRunKeepsKeysDistinct | apps/api/src/routes/admin.ts:73-96 | over every run no two accounts share an address, a user name up to case, an address with a user name, or a non-empty folded user name |
| SignIn.HolderIsApart | apps/api/src/routes/admin.ts:79-94 | an account that passed the clash check shares no key with any other |
| SignIn.UnambiguousIffFoldedApart | packages/db/migrations/0159_password_reset.sql:117-131 | no identifier resolves to two accounts if and only if no user name folds to another's folded address |
| SignIn.FoldedAddressSlipsThrough | apps/api/src/routes/admin.ts:83-91 | the check accepts a user name that folds to another account's address, which then resolves to both |
| SignInText.AsciiIsLawful | apps/api/src/routes/admin.ts:84-90 | the ASCII text functions satisfy what the account lemmas assume of trimming and case |
| Separators.StripIgnoresSeparator | apps/api/src/routes/admin.ts:86-90 | a separator more or less makes no difference to the folded form |
| Separators.StripKeepsTheRest | apps/api/src/routes/admin.ts:86-90 | and text without separators is left as it is |
| AsciiText.TrimTakesSpacesOnly | apps/api/src/routes/admin.ts:254-256 | trimming takes white space off both ends and nothing else |
| AsciiText.BTrimTakesBlanksOnly | apps/api/src/routes/admin.ts:84-90 | `btrim` takes blanks off both ends and nothing else |

## Left out

- Express wiring, HTTP, JWT, password hashing, audit rows, notifications and row-level security.
- `ensureBootstrapOrg`, called around the migrations: it is not a migration and records nothing.
- Migration file contents, apart from whether a file commits by itself; a self-committing file counts as one effect.
- The zone database: offsets are whole minutes. `nextRunAtFor` is a parameter, and so is the set of known zones.
- CronPatch.CronJob.Patch: does not model a stored `run_time` that is no HH:MM; it is an internal error here, where the
  code may convert a text such as `8:00`. Params are JSON texts, and trimming is that of ASCII white space.
- Catalogue.ExpandGrants: states the set and the absence of duplicates, not the order of the codes, which no caller reads.
- PostgreSQL's limit on parameters.
- BulkInsert.BulkInsert: the ids the statement returns.
- Reconcile.RbacDb.ReconcileRbac: of several role rows with one code the last one read counts, as in the code.
- AuthUser.LoadPermissions: the summaries of acting roles and the row filters (status, expiry) of the four queries.
- Authorize.RequirePermission: the duty query and the scope query are opaque answers; the former looks at one row only, in no stated order.
- Attribute names such as `__proto__`, which JavaScript objects treat specially, and reads of inherited properties.
- Conversion of objects and arrays to text or number in `$ref` and `$between`, which is a parameter of `Abac.Host`.
- PolicyStore.Admin.Create: trimming and case mapping are those of ASCII.
- WorkerLocks.Worker.RunTask: times, durations and handler counters of the run record; heartbeat and shutdown of the worker.
- LabelBridge.Daemon.ProcessQueue: print jobs, whose status the spool also looks at, and other routes that change labels;
  poll and login are not among the requests it lists.
- CompanyProfile.CompanyModule.Fetch: assumes that `fetch` reports failure through its promise; one that threw at once would leave
  the settled promise in `inflight`.
- SignIn.EveryRunKeepsKeysDistinct: one tenant, calls one after another; two transactions side by side are not modelled, nor is
  address uniqueness across tenants.
- SignIn.Directory.PatchUser: only the two identifiers of a change.
- Case mapping beyond ASCII: `Names` covers ASCII; the account lemmas hold for any text functions that satisfy `SignInText.Lawful`.
- The account unlock route, which writes status history without the status.
- Chart of accounts, master data, EFRIS, reports, deployment scripts and user interface: data or input and output with easy claims only.
