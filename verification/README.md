# Verified model of the sandbox infrastructure's core

A Dafny model of the parts of the repository where state, time and partial failure
meet, with proofs of what they promise. Each `.dfy` file is one component; `dafny verify dfyconfig.toml`
checks them all.

**Template, build and snapshot store.** `Store` holds the tables as one value `Db` and gives every
write query on them its meaning as a function on it (`AfterUpsertSnapshot`, `AfterDeleteTemplate`, ...);
`Database` carries the same queries out part by part on live tables (the chained inserts of
`UpsertSnapshot` with the `''` placeholder, the alias keys captured before the cascade, the
registering transaction with its loop and rollback) and is proved to have exactly that meaning. On top:
`StoreInvariants` (what every run keeps), `SnapshotRows` and `History` (the life of a
sandbox's snapshot), `Resolution` (which build a tag names), `Deletion` and `DeletionRuns`, `ActiveBuilds`,
`ConcurrentBuilds` and `Cancellation`. `Rows`, `Aliases`, `TagAnswers` and `SnapshotAnswers` say
in plain status texts and columns what the write queries leave and what the read queries then answer.

**Keyset pagination.** `Keyset` proves the page walk once, for any strict total order, over an
unchanging table (`Walk`) and over one that changes between requests (`WalkChanging`).
`BuildListing` and `SnapshotListing` show that the real filters are that query: the swapped row
comparison, the text cursor over uuid order (`Uuid`, `Lex`; the text form is that of section 4 of
RFC 9562), and lateral joins that neither repeat nor drop a row.

**Sessions.** `FcProvider` is the provider with its session map; `FcSessions` runs its calls and listings
interleaved, one map access, look at the clock or remote answer at a time, `FcLosses` says how sessions are
lost, and both `FcSessions` and `FcListing` show that what runs alone does what the methods promise.

**Instance pool.** `InstanceHealth` (sync and health), `InstancePool` (reconciliation with service
discovery, in the order of `packages/shared/pkg/synchronization/synchronization.go`) and
`BuilderSelection`.

**Request handling.** `Connect` (keep alive, wait, resume), `Mounts` with `Paths` and `Text` (volume
mounts and path cleaning) and `LogWindow`.

## Assumptions

- Statements run one after another, and each transaction has a later time than the one before. The queries
  that take the newest row by `created_at` have no tie-break; their answer is modelled as the set of
  builds the database may return, and proved to have at most one element.
- Generated ids (builds, assignment rows, session ids) are parameters; a repeated one is a
  unique violation, except that session ids are taken not to repeat.
- Runs are sequences of the transactions the API issues: `Stmt` in `Store`. A registration is one transaction
  with its alias and its loop over tags; so is the tagging of an existing build.
- Foreign keys, unique keys and triggers are those of the migrations: cascades from envs and builds
  (`20250206105106_add_snapshot_constraints.sql`, `20251218160000_allow_m_n_builds_with_tags.sql`),
  one snapshot per sandbox (`20251009170758_unique_snapshots.sql`), one alias per name and namespace with NULL
  namespaces counting as equal (`20260127120000_add_env_aliases_uuid_pkey.sql`), `status_group` computed from
  `status` (`20260210120002_add_status_group_column.sql`) and a build's team filled in by
  its first assignment (`20260218120000_add_team_id_to_env_builds.sql`). Keys into `envs` made by
  these constraints include a snapshot's `base_env_id`.
- `History` is about runs the handlers let through: a build is registered for a new env or one found by a
  template lookup, and default tags are assigned to, or deleted from, such an env only (`History.Proper`).
- Text is compared byte by byte. `try_cast_uuid` is a function parameter.
- Remote sides (function sessions, orchestrator, snapshot cache, service discovery, clocks) may answer
  anything; their answers are parameters.
- `filepath.Clean` is modelled on absolute paths by its documented rules, component by component.

## Where code and expectation differ

- The active table equals the unfinished registered builds only while callers are disciplined. Beyond
  "unfinished status for a plain update, finished status for a deactivation" this needs that no plain update reopens
  a finished build. `TemplateManager.SetStatus` can do that: a build that is superseded by another
  registration before its own start is reported comes out unfinished and inactive. `StepExactIff` gives the
  exact condition, `ReopenedBuildIsNotActive` that run.
- A snapshot row goes not only with its own env but also with its base env (`StepOnSnapshot`).
- A session that a listing dropped as expired is listed again exactly when a function that still has a session
  reports it running (`ListTwice`; `ExpiredSessionListedAgain` is such a case).
- Deleting tags looks at no build. Two builds in progress lose sight of each other exactly when no shared
  tag is left to them (`UntaggingHidesTheOther`), and a reference by build id stops working with the build's last
  tag (`UntaggingByBuildId`).
- A call begun before a session's `Create` returned may answer not-found although the session is found
  later (`EarlyMissIsNotPermanent`). Not-found is for good exactly when the session's id has been generated, its
  `Create` has returned and it is not tracked (`NotFoundForGoodIff`).
- Two reconcile rounds bring the pool to the source except at nodes held by an identifier that is still
  discovered elsewhere: no round ever repairs those (`TwoRoundsConvergeIff`; `MovedIdentifier` shows how one
  comes about).
- The message for a path that is not clean speaks of `.` and `..` components only; doubled and trailing
  slashes are refused as well (`AcceptedPaths`).

## Model

| member | source | states |
|---|---|---|
| Database.Database.UpsertSnapshot | packages/db/queries/create_new_snapshot.sql.go:16-113 | the four chained inserts, each reading the tables as they were before, together have the statement's meaning, return the build and the env of the sandbox's row, and change nothing on a violation |
| Database.Database.CreateSnapshotTemplateEnv | packages/db/queries/create_snapshot_template_env.sql.go:14-42 | a new env sharing an existing build, all or nothing; no build means a not-null violation |
| Database.Database.DeleteTemplate | packages/db/queries/delete_template.sql.go:14-57 | cascade from the env row, and the returned keys are those the env's aliases had before it, one each, or none if the team does not own the env |
| Database.Database.CreateOrUpdateTemplate | packages/db/queries/create_template.sql.go:15-21 | insert, or only count up for an existing env |
| Database.Database.InvalidateUnstarted | packages/db/queries/create_template.sql.go:101-117 | the update and the delete see the same builds |
| Database.Database.CreateTemplateBuild | packages/db/queries/create_template.sql.go:40-68 | a new build row, or a unique violation and no change |
| Database.Database.CreateAssignment | packages/db/queries/create_template_build_assignment.sql.go:14-17 | the row with its foreign keys and the team backfill, or no change |
| Database.Database.InsertAssignment | packages/db/migrations/20260218120000_add_team_id_to_env_builds.sql:7-22 | a row together with the trigger that fixes the build's team once |
| Database.Database.CreateActive | packages/db/queries/active_template_builds.sql.go:14-26 | one active row per build |
| Database.Database.DeleteActive | packages/db/queries/active_template_builds.sql.go:45-48 | removes the build's active row and nothing else |
| Database.Database.RegisterBuild | packages/api/internal/template/register_build.go:149-360 | env, invalidation, build, alias, tags and active row as one all-or-nothing transaction; without tags the default tag is assigned |
| Database.Database.ClaimAlias | packages/api/internal/template/register_build.go:228-321 | an alias that is a template id fails (409), another template's fails (403); one's own is kept; a free one replaces the renamable ones |
| Database.Database.AssignTags | packages/api/internal/template/register_build.go:326-341 | the loop over tags, stopping at the first failure |
| Database.Database.TagTransaction | packages/api/internal/handlers/template_tags.go:130-150 | tagging an existing build, all tags or none |
| Database.Database.DeleteTags | packages/db/queries/delete_template_build_assignment.sql.go:12-15 | exactly the env's rows of those tags go |
| Database.Database.CreateAlias | packages/db/queries/create_alias.sql.go:12-15 | one alias per name and namespace, or no change |
| Database.Database.UpsertAlias | packages/db/queries/upsert_alias.sql.go:12-26 | the returned env is the one the alias points to afterwards; a taken alias changes nothing |
| Database.Database.DeleteAliases | packages/db/queries/delete_old_aliases.sql.go:12-20 | the env's renamable aliases go, and the returned keys are theirs |
| Database.Database.UpdateTemplateBuild | packages/db/queries/update_template.sql.go:40-54 | only the node of an existing build |
| Database.Database.UpdateStatus | packages/db/queries/update_template_build_status.sql.go:47-54 | status and finish time of an existing build, active rows untouched |
| Database.Database.FailAndDeactivate | packages/db/queries/update_template_build_status.sql.go:16-26 | status update and loss of the active row in one statement |
| Database.Database.FinishBuild | packages/db/queries/finish_template_build.sql.go:15-27 | the same with the statement's own time |
| Rows.StatusTexts | packages/db/migrations/20260210120002_add_status_group_column.sql:8-13 | the four groups of status texts, and which texts are final |
| Rows.UpsertLeaves | packages/db/queries/create_new_snapshot.sql.go:16-113 | the new build's creation time, status, team and node, and a new env's team and source; all else stays |
| Rows.UpsertErrors | packages/db/queries/create_new_snapshot.sql.go:16-113 | a used id, or a new sandbox whose env exists, is a unique violation, and nothing else is |
| Rows.SharingLeaves | packages/db/queries/create_snapshot_template_env.sql.go:14-42 | the env, the snapshot template row and the assignment in all columns; a build without a team gets the env's |
| Rows.SharingErrors | packages/db/queries/create_snapshot_template_env.sql.go:14-42 | exactly when it succeeds and which violation it is otherwise |
| Rows.TemplateLeaves | packages/db/queries/create_template.sql.go:15-21 | an existing env keeps team and source and is counted up; a new one is a template of the caller's team |
| Rows.InvalidationLeaves | packages/db/queries/create_template.sql.go:101-117 | exactly the pending or waiting builds with one of the tags become failed now and inactive; nothing else changes |
| Rows.RegisterLeaves | packages/api/internal/template/register_build.go:149-360 | a waiting build without a node, of the env's team, and its active row with the caller's team and tags |
| Rows.StatusLeaves | packages/db/queries/update_template_build_status.sql.go:16-54 | what each status query writes into an existing build, and which of them end its active row |
| Rows.StatusOfNothing | packages/db/queries/update_template_build_status.sql.go:16-54 | they write nothing for a build that is not there |
| Rows.SmallStatementsLeave | packages/db/queries/delete_template_build_assignment.sql.go:12-15 | putting a build on a node, ending an active row and deleting tags each write just that |
| Rows.InFlightTexts | packages/db/migrations/20260210120002_add_status_group_column.sql:8-13 | which statements count as work in flight, in plain status texts |
| Aliases.ClaimSucceedsIff | packages/api/internal/template/register_build.go:238-321 | exactly when an alias claim succeeds and which refusal it is otherwise |
| Aliases.ClaimMeaning | packages/api/internal/template/register_build.go:275-305 | afterwards the env holds the alias: nothing changed if it did before, and otherwise exactly its renamable aliases went and one came; other envs keep theirs |
| Aliases.RegisterAliases | packages/api/internal/template/register_build.go:228-321 | the same for the whole registration; without an alias nothing changes |
| Aliases.RegisterSucceedsIff | packages/api/internal/template/register_build.go:149-360 | a registration succeeds iff its ids are new and distinct and its alias is no env's id and no other env's |
| Aliases.TaggingSucceedsIff | packages/api/internal/handlers/template_tags.go:130-144 | a tag loop succeeds iff its row ids are new and distinct and, given any tag, env and build exist |
| Aliases.AliasStatements | packages/db/queries/upsert_alias.sql.go:12-26 | a created alias must be free and its env exist; an upserted one that is taken stays with its holder |
| StoreInvariants.RunKeepsInv | packages/db/queries/create_new_snapshot.sql.go:16-113 | over every run of the transactions in `Stmt`, failing or not: no dangling reference, unique keys, equal assignment times only for one build, snapshot rows in snapshot envs of their team, assigned builds have a team |
| StoreInvariants.UpsertKeepsInv | packages/db/queries/create_new_snapshot.sql.go:16-113 | an upsert leaves the tables consistent: the placeholder never survives as a dangling env |
| StoreInvariants.RegisterKeepsInv | packages/api/internal/template/register_build.go:149-360 | so does the registering transaction, with all its rows at one time |
| StoreInvariants.DeleteTemplateKeepsInv | packages/db/queries/delete_template.sql.go:14-30 | the cascade leaves no dangling reference |
| StoreInvariants.AssignTagsShape | packages/api/internal/template/register_build.go:326-341 | assigning tags adds rows of one env and build only, and fixes a missing team at most |
| StoreInvariants.AssignTagsRows | packages/api/internal/handlers/template_tags.go:130-144 | exactly one row for each tag |
| SnapshotRows.UpsertAddsOneAssignment | packages/db/queries/create_new_snapshot.sql.go:101-109 | exactly one new default assignment, in the env the sandbox's row names, which exists |
| SnapshotRows.UpsertAddsOneBuild | packages/db/queries/create_new_snapshot.sql.go:66-99 | exactly one new build, owned by that env's team; no other build changes |
| SnapshotRows.UpsertRefreshesOneRow | packages/db/queries/create_new_snapshot.sql.go:17-63 | env, base env, team, secure and internet flags and creation time keep their first values, the five refreshed columns take the new ones, other sandboxes are untouched |
| SnapshotRows.UpsertSucceedsIff | packages/db/queries/create_new_snapshot.sql.go:16-110 | exactly when an upsert succeeds |
| SnapshotRows.StepOnSnapshot | packages/db/queries/create_new_snapshot.sql.go:57-63 | for every statement: a row goes iff its env or base env is deleted by its team, and otherwise keeps its first values |
| SnapshotRows.RunOnSnapshot | packages/db/queries/create_new_snapshot.sql.go:57-63 | over a whole run a row is kept with its first values throughout iff no event of it is a deletion of its env or base env by the owning team |
| SnapshotRows.RowGoesWithItsEnv | packages/db/queries/create_new_snapshot.sql.go:57-63 | the first such deletion is where the row goes, and no earlier event |
| SnapshotRows.NoPlaceholder | packages/db/queries/create_new_snapshot.sql.go:46-47 | over every run no snapshot ever has the empty env id |
| History.RunRefines | packages/db/queries/get_last_snapshot.sql.go:12-32 | over every run the handlers let through, the snapshot tables refine a per-sandbox list of uploads, and GetLastSnapshot answers with the most recent upload whose build is ready |
| History.RunFromEmptyRefines | packages/db/queries/get_last_snapshot.sql.go:12-32 | the same from empty tables, where the log is that of the run itself |
| History.NewestIsLastReady | packages/db/queries/get_last_snapshot.sql.go:15-22 | the newest ready row of a history is its last ready upload |
| History.LastSnapshotIsLastReady | packages/db/queries/get_last_snapshot.sql.go:12-32 | the answer in any refining state, none without a ready upload |
| History.UnreadyUploadsDoNotCount | packages/db/queries/get_last_snapshot.sql.go:14-31 | any number of later pending or failed uploads leaves the answer alone |
| History.UpsertRefines | packages/db/queries/create_new_snapshot.sql.go:16-113 | an upsert appends one upload to the sandbox's history |
| History.OthersUntouched | packages/api/internal/handlers/template_tags.go:130-270 | no other statement the handlers let through adds to, or takes from, a live sandbox's history |
| SnapshotAnswers.UpsertAnswers | packages/db/queries/get_last_snapshot.sql.go:14-22 | after one upsert the answer is its build with a ready status text, and what it was with any other |
| SnapshotAnswers.PauseThenReport | packages/api/internal/orchestrator/pause_instance.go:40-70 | a pause and then any report on it: the answer becomes its build iff the reported text is a ready one |
| SnapshotAnswers.LastSnapshotLiterally | packages/db/queries/get_last_snapshot.sql.go:12-32 | the answer, said of rows and status texts alone |
| Resolution.ResolveMeaning | packages/db/queries/get_template_with_build_by_tag.sql.go:12-36 | at most one answer, and it is b iff the newest matching assignment with a ready build is b's |
| Resolution.OneAnswer | packages/db/queries/get_template_with_build_by_tag.sql.go:32-35 | ordering by time without a tie-break is harmless when rows of one time are about one build |
| TagAnswers.ResolveLiterally | packages/db/queries/get_template_with_build_by_tag.sql.go:12-36 | when a reference names a build, said of rows, tags and status texts alone |
| TagAnswers.NothingLiterally | packages/db/queries/get_template_with_build_by_tag.sql.go:12-36 | exactly when it names nothing |
| TagAnswers.UnknownTagNamesNothing | packages/db/queries/get_template_with_build_by_tag.sql.go:15-22 | a tag no row of the env carries, and that is no build id, names nothing |
| TagAnswers.RegisterThenFinish | packages/api/internal/template-manager/template_status.go:299-312 | after a registration and its finish, every tag given names the build, no tag does if one of them is or defaults to the default one, and so does its id |
| TagAnswers.TaggingAnswers | packages/api/internal/handlers/template_tags.go:130-150 | after tagging a ready build, every tag given names it |
| TagAnswers.SharingAnswers | packages/db/queries/create_snapshot_template_env.sql.go:14-42 | a new env sharing a ready build answers with it under its tag |
| TagAnswers.SnapshotsAreNoTemplates | packages/db/queries/get_template_with_build_by_tag.sql.go:32-33 | the env of a sandbox snapshot is never an answer |
| Resolution.InFlightWorkMovesNoTag | packages/db/queries/get_template_with_build_by_tag.sql.go:15-35 | no sequence of registering, assigning, untagging, starting, invalidating or failing not-ready builds changes what any tag or snapshot resolves to |
| Resolution.FinishPublishes | packages/db/queries/finish_template_build.sql.go:15-27 | exactly which tags a finished build takes over: those it has, unless a newer ready row exists |
| Resolution.UntaggingMeaning | packages/db/queries/delete_template_build_assignment.sql.go:12-15 | deleting tags leaves other envs alone, and on its own env a reference names b iff b leads among the ready rows whose tags are left |
| Resolution.UntaggingByTag | packages/api/internal/handlers/template_tags.go:264-268 | a deleted tag names nothing, every other tag what it did |
| Resolution.UntaggingByBuildId | packages/db/queries/get_template_with_build_by_tag.sql.go:16-24 | a build id names its build iff the build is ready and keeps a row under some tag |
| DeletionRuns.DeletionNeverInterferes | packages/db/queries/get_exclusive_builds_for_template_deletion.sql.go:14-24 | over every later run that names none of the template's rows: the same transactions succeed, the tables differ by that template's rows only, and every other template and snapshot resolves as without the deletion |
| DeletionRuns.RunCommutes | packages/db/queries/delete_template.sql.go:14-30 | removing an env and its own builds commutes with every run that keeps apart from them |
| Deletion.DeletionDoesNotInterfere | packages/db/queries/get_exclusive_builds_for_template_deletion.sql.go:14-24 | deleting a template and its exclusive builds leaves no dangling assignment, and every other env resolves every tag as before |
| Deletion.DeletionKeepsOtherSnapshots | packages/db/queries/get_exclusive_builds_for_template_deletion.sql.go:14-24 | every snapshot neither living in the template nor started from it stays and resolves to the same build |
| Deletion.ExclusiveIsExactlyWhatMayGo | packages/db/queries/get_exclusive_builds_for_template_deletion.sql.go:14-24 | builds of the template can be removed without losing another env's rows iff all of them are listed |
| Deletion.DeleteTemplateCascades | packages/db/queries/delete_template.sql.go:14-30 | exactly which rows go and stay; nothing happens for another team's env |
| ActiveBuilds.RunKeepsExact | packages/db/queries/active_template_builds.sql.go:14-48 | over every disciplined run the active table is exactly the unfinished registered builds |
| ActiveBuilds.StepExactIff | packages/db/queries/update_template_build_status.sql.go:16-54 | a transaction keeps that iff it is disciplined |
| ActiveBuilds.InvalidationFailsWhatItDeactivates | packages/db/queries/create_template.sql.go:101-117 | invalidation fails exactly the pending builds of the tags and deactivates exactly the registered ones among them |
| ActiveBuilds.RegisterKeepsExact | packages/api/internal/template/register_build.go:149-360 | registration activates the new build and keeps the table exact |
| ActiveBuilds.SetStatusDisciplinedIff | packages/api/internal/template-manager/template_status.go:264-328 | SetStatus writes the group asked for and is disciplined iff it does not reopen a finished registered build |
| ActiveBuilds.SetStatusWrites | packages/api/internal/template-manager/template_status.go:264-328 | the status text written for each group, the finish time, and when the active row ends |
| ActiveBuilds.ReopenedBuildIsNotActive | packages/api/internal/template-manager/create_template.go:169-176 | two registrations for one template and then the report that the first has started: it ends unfinished and inactive |
| ActiveBuilds.StartedAfterSuperseded | packages/api/internal/template-manager/create_template.go:169-176 | the same in any state, for any pending build that shares a tag with the registration |
| ActiveBuilds.RegistrationSupersedes | packages/db/queries/create_template.sql.go:101-117 | a registration fails and deactivates every pending build it shares a tag with |
| ConcurrentBuilds.ConcurrentMeaning | packages/db/queries/get_concurrent_template_builds.sql.go:14-25 | listed iff another unfinished build shares a tag on the template |
| ConcurrentBuilds.ConcurrentLiterally | packages/db/queries/get_concurrent_template_builds.sql.go:14-25 | the same in rows and status texts |
| ConcurrentBuilds.ConflictIsSymmetric | packages/db/queries/get_concurrent_template_builds.sql.go:14-25 | between unfinished builds, each sees the other or neither does |
| ConcurrentBuilds.LaterStartSeesTheOther | packages/api/internal/handlers/deprecated_template_start_build.go:29-42 | after every run the other build is seen iff it is unfinished and there is a tag that both got, or had at first, and that nothing has taken away since |
| ConcurrentBuilds.RunOnTag | packages/db/queries/get_concurrent_template_builds.sql.go:14-25 | over every run, exactly when a build has a tag |
| ConcurrentBuilds.SharedTagKeepsThemInSight | packages/api/internal/handlers/deprecated_template_start_build.go:29-42 | two builds sharing a tag that no event takes away see each other iff unfinished |
| ConcurrentBuilds.UntaggingHidesTheOther | packages/api/internal/handlers/template_tags.go:264-268 | deleting tags hides a conflict iff no shared tag is left, whatever the builds are doing |
| ConcurrentBuilds.CancelList | packages/api/internal/handlers/deprecated_template_start_build.go:29-73 | the cancel list has no duplicates and is exactly the conflicting in-progress builds with a node, each with its node; no call is made iff nothing conflicts |
| Cancellation.LaterStartCancelsIff | packages/api/internal/handlers/deprecated_template_start_build.go:29-73 | after every run a start cancels another build on a node iff the last report about that one is that it is in progress, the node is the last one written for it, and a shared tag is left |
| Cancellation.RunOnGroup | packages/db/queries/update_template_build_status.sql.go:16-54 | over every run a build's group is that of the last status written for it |
| Cancellation.RunOnNode | packages/db/queries/update_template.sql.go:40-54 | over every run a build's node is the last one written for it, by its upsert, its registration or its start |
| Cancellation.StartedBuildIsCancelled | packages/api/internal/handlers/deprecated_template_start_build.go:43-55 | a build registered, put on a node and reported in progress is cancelled there by the start of another one that shares a tag |
| Cancellation.CancelsLiterally | packages/api/internal/handlers/deprecated_template_start_build.go:43-55 | which builds are cancelled, in rows and status texts |
| Cancellation.BothPendingCancelNothing | packages/api/internal/handlers/deprecated_template_start_build.go:29-73 | two pending builds that share a tag see each other and cancel nothing |
| Keyset.Walk | packages/api/internal/utils/pagination.go:72-117 | page after page with a fetched extra row yields the whole listing after the cursor, full pages except the last |
| Keyset.WalkChanging | packages/db/queries/get_builds_paginated.sql.go:16-48 | over a changing table no row comes twice, none comes from nowhere, and a row always present is not missed |
| Keyset.ListingAfter | packages/db/queries/get_builds_paginated.sql.go:44-47 | what follows a listed row is the tail of the listing |
| Keyset.RequestMeaning | packages/db/queries/get_builds_paginated.sql.go:44-47 | what one request returns and what its cursor separates |
| BuildListing.WalkTeamBuilds | packages/db/queries/get_builds_paginated.sql.go:16-48 | with the tables changing between pages: no build twice, each matched when returned, a build matching throughout is returned |
| BuildListing.TeamPageIsFetch | packages/db/queries/get_builds_paginated.sql.go:40-47 | the filter on the row tuple is "strictly after the cursor" of the listing order, in all four variants |
| BuildListing.JoinAddsOneRow | packages/db/queries/get_builds_paginated.sql.go:26-32 | the lateral join gives one row, the newest matching one, with an existing env, for a build with a matching assignment, and none otherwise |
| BuildListing.EligibleLiterally | packages/db/queries/get_builds_paginated.sql.go:191-229 | which builds each of the four variants is about |
| BuildListing.BeforeMeaning | packages/db/queries/get_builds_paginated.sql.go:46 | newest first, then by the greater id |
| BuildListing.RunKeepsCreation | packages/db/queries/get_builds_paginated.sql.go:44-46 | no run removes a build or changes its creation time |
| BuildListing.TransactionsKeepCreation | packages/db/queries/get_builds_paginated.sql.go:44-46 | so whatever runs between the pages, the walk's condition holds |
| BuildListing.WalkTemplateBuilds | packages/db/queries/get_template_with_builds.sql.go:13-21 | with the tables changing between pages: no build twice although it may have several tags, each assigned when returned, a build assigned throughout is returned |
| BuildListing.WalkTemplateBuildsAtRest | packages/db/queries/get_template_with_builds.sql.go:13-21 | over tables at rest the text-cursor walk ends with exactly the template's builds after the first cursor, each once |
| BuildListing.TemplatePageIsFetch | packages/db/queries/get_template_with_builds.sql.go:16-20 | comparing `id::text` selects what lies after the cursor in uuid order |
| Uuid.TextOrder | packages/db/queries/get_template_with_builds.sql.go:18-19 | the text forms compare as the 128-bit numbers do, and differ when they differ |
| Uuid.TextForm | packages/db/queries/get_template_with_builds.sql.go:18-19 | 36 characters, dashes at four places, lowercase hexadecimal digits elsewhere |
| Uuid.HexOrder | packages/db/queries/get_template_with_builds.sql.go:18-19 | fixed-width hexadecimal keeps the order |
| Uuid.DashedOrder | packages/db/queries/get_template_with_builds.sql.go:18-19 | dashes at fixed places do not change it |
| SnapshotListing.WalkSnapshots | packages/db/queries/get_snapshots_with_cursor.sql.go:17-52 | for every page size the walk ends with the whole filtered listing, started_at descending and sandbox_id ascending, each sandbox once |
| SnapshotListing.PageQueryIsFetch | packages/db/queries/get_snapshots_with_cursor.sql.go:45-51 | the swapped comparison is exactly "strictly after the cursor" |
| SnapshotListing.JoinAddsOneRow | packages/db/queries/get_snapshots_with_cursor.sql.go:34-44 | each listed snapshot is joined with exactly one build |
| SnapshotListing.BeforeIsTotal | packages/db/queries/get_snapshots_with_cursor.sql.go:50 | the mixed order is a strict total order |
| SnapshotListing.BeforeMeaning | packages/db/queries/get_snapshots_with_cursor.sql.go:50 | latest start first, then by the smaller id |
| SnapshotListing.ListedLiterally | packages/db/queries/get_snapshots_with_cursor.sql.go:34-49 | which snapshots are listed: the team's, with the filter contained in the metadata and a ready default build |
| FcProvider.FcProvider.Create | packages/fc-provider/fc_provider.go:105-160 | a session is tracked iff the remote side accepted it |
| FcProvider.Ttl | packages/fc-provider/fc_provider.go:109-117 | the whole seconds of a timeout of at least 60 seconds, 60 for a shorter one, and the default, but at least 60, without one |
| FcProvider.ExpiredMeaning | packages/fc-provider/fc_provider.go:174-175 | a session lives for its time-to-live and not a nanosecond longer |
| FcProvider.ReportTexts | packages/fc-provider/fc_provider.go:296-312 | only the text "Expired" ends a session; a missing id is the empty one |
| FcProvider.FcProvider.Get | packages/fc-provider/fc_provider.go:163-218 | not found iff untracked or past its time, and then untracked; a remote failure keeps the session |
| FcProvider.FcProvider.Delete | packages/fc-provider/fc_provider.go:221-244 | removed iff tracked and the remote delete succeeded |
| FcProvider.FcProvider.Connect | packages/fc-provider/fc_provider.go:378-401 | not found iff untracked; otherwise the endpoint of the session's function |
| FcProvider.FcProvider.List | packages/fc-provider/fc_provider.go:251-375 | for any remote answers and any map order: tracked afterwards is exactly what was tracked, unexpired and not reported ended; returned ids and their sources exactly; each once if the remote side repeats none |
| FcProvider.FcProvider.ListRemote | packages/fc-provider/fc_provider.go:279-350 | every function is listed once in any order, failed ones skipped, and the token is one of theirs |
| FcProvider.FcProvider.ListUnseen | packages/fc-provider/fc_provider.go:354-372 | tracked sessions nobody reported: the live ones are returned, the expired ones dropped |
| FcProvider.ReturnedAreTracked | packages/fc-provider/fc_provider.go:251-375 | without repeats, the previously tracked ids returned are exactly those left tracked |
| FcProvider.ReturnedAreTrackedIff | packages/fc-provider/fc_provider.go:314-318 | with repeats: exactly unless a live session is reported both running and ended |
| FcProvider.FailedListingsLoseNothing | packages/fc-provider/fc_provider.go:291-293 | if every listing fails, exactly the live sessions are returned and stay |
| FcProvider.ListTwice | packages/fc-provider/fc_provider.go:322-331 | an expired session is dropped by a listing, and a later one returns it iff a function that still has a session reports it running |
| FcProvider.ExpiredSessionListedAgain | packages/fc-provider/fc_provider.go:322-331 | it happens: two creations and a remote side that never forgets |
| FcSessions.NotFoundIsPermanent | packages/fc-provider/fc_provider.go:162-244 | in every interleaving: after a call begun once Create returned answered not-found or deleted the session, every later-begun call answers not-found |
| FcSessions.NotFoundForGoodIff | packages/fc-provider/fc_provider.go:105-244 | every call begun from now on, in every continuation, can only answer not-found iff the id was generated, its Create has returned and it is not tracked |
| FcSessions.EarlyMissIsNotPermanent | packages/fc-provider/fc_provider.go:140-168 | a call that looked before Create stored the session is no such witness |
| FcSessions.EveryRunIsSound | packages/fc-provider/fc_provider.go:109-145 | in every interleaving from the start, only generated ids whose Create has stored them are tracked, each with a time-to-live of at least 60 |
| FcLosses.LossHasACause | packages/fc-provider/fc_provider.go:162-375 | over every interleaving a tracked session is lost iff some action takes it away: a Get or a listing that had seen it and read a time past its own time-to-live, a Delete the remote side accepted, or a listing to which it was reported ended |
| FcLosses.StepLosesIff | packages/fc-provider/fc_provider.go:175-241 | the same for one step, which otherwise leaves the session as it is |
| FcLosses.LiveSessionSurvives | packages/fc-provider/fc_provider.go:314-362 | a session survives every interleaving with calls and listings while no time past its time-to-live is read, no deletion of it accepted and it is not reported ended |
| FcLosses.EveryRunKnows | packages/fc-provider/fc_provider.go:255-267 | whatever a call or listing has seen of a session is true of it as long as it is tracked |
| FcListing.ListAloneAsPromised | packages/fc-provider/fc_provider.go:251-375 | run alone, in any order, the steps of a listing leave tracked what List promises |
| FcLosses.FailedCallKeepsTheSession | packages/fc-provider/fc_provider.go:235-238 | a call that answers failure removed nothing at any point |
| FcSessions.AloneAsPromised | packages/fc-provider/fc_provider.go:162-244 | run alone, the steps of a call do what the provider's methods promise |
| FcSessions.CreateAlone | packages/fc-provider/fc_provider.go:105-160 | run alone, a creation does what Create promises |
| InstanceHealth.InfoMeaning | packages/api/internal/clusters/instance.go:116-163 | after any results: counter = trailing failures, Unhealthy from the third on and otherwise the last report, flags = roles last reported |
| InstanceHealth.ThreeFailuresAndOneReport | packages/api/internal/clusters/instance.go:122-150 | three failures in a row always mean Unhealthy; one report restores everything |
| InstanceHealth.AvailableIff | packages/api/internal/clusters/cluster.go:232-244 | offered iff fewer than three syncs failed since a report of a healthy, compatible builder |
| InstanceHealth.Instance.Sync | packages/api/internal/clusters/instance.go:116-163 | one answer's effect on all fields, success iff answered |
| InstanceHealth.NewInstance | packages/api/internal/clusters/instance.go:64-112 | an instance is handed out iff its first sync succeeded, and never with default status or roles |
| InstancePool.Store.SourceExists | packages/api/internal/clusters/instances_sync.go:33-42 | found iff some item has the instance's unique identifier |
| InstancePool.Store.PoolExists | packages/api/internal/clusters/instances_sync.go:53-57 | found iff the pool has the item's node |
| InstancePool.Store.PoolInsert | packages/api/internal/clusters/instances_sync.go:59-80 | adds a fresh synced instance under its node, or nothing if creation fails |
| InstancePool.Store.PoolRemove | packages/api/internal/clusters/instances_sync.go:86-98 | removes the instance's node only |
| InstancePool.Store.PoolUpdate | packages/api/internal/clusters/instances_sync.go:82-84 | one sync of that instance |
| InstancePool.Store.PoolList | packages/api/internal/clusters/instances_sync.go:44-51 | every instance of the pool once |
| InstancePool.Store.SyncDiscovered | packages/shared/pkg/synchronization/synchronization.go:113-134 | for every interleaving of checks and insertions: known nodes stay, a missing node comes in as one of its created items, and every created item's node is there |
| InstancePool.Store.SyncOutdated | packages/shared/pkg/synchronization/synchronization.go:136-159 | exactly the instances whose identifier is discovered stay, each synced once |
| InstancePool.Store.Sync | packages/shared/pkg/synchronization/synchronization.go:93-111 | what a round makes of every node |
| InstancePool.RoundLeavesNothingStale | packages/api/internal/clusters/instances_sync.go:33-42 | no stale identifier survives a round; misplaced entries are neither made nor mended |
| InstancePool.OneRoundConvergesIff | packages/api/internal/clusters/instances_sync.go:33-57 | exactly when one round suffices, and when it leaves a discovered node absent |
| InstancePool.TwoRoundsConvergeIff | packages/api/internal/clusters/instances_sync.go:33-97 | two rounds suffice iff the node was not misplaced |
| InstancePool.ConvergedMeansEqual | packages/api/internal/clusters/instances_sync.go:33-57 | with distinct nodes, converged everywhere means the pool's entries are the source's |
| InstancePool.ConvergedStays | packages/api/internal/clusters/instances_sync.go:33-97 | a converged pool never changes, even if nothing can be created |
| InstancePool.ManyRounds | packages/api/internal/clusters/instances_sync.go:59-97 | with creations failing at will: a node is there iff it was after round one or was created later, and holds only what is discovered |
| InstancePool.MisplacedForGood | packages/api/internal/clusters/instances_sync.go:33-57 | a misplaced entry stays through any number of rounds |
| InstancePool.MovedIdentifier | packages/api/internal/clusters/instances_sync.go:33-57 | an identifier that moves to another node stays under the old one, whatever later rounds create |
| BuilderSelection.Cluster.GetTemplateBuilderByNodeID | packages/api/internal/clusters/cluster.go:185-196 | found iff the node's instance builds and is not unhealthy |
| BuilderSelection.Cluster.GetRandomInstance | packages/api/internal/clusters/cluster.go:209-225 | after the in-place shuffle, a match of the pool is returned iff there is one |
| BuilderSelection.Cluster.GetAvailableTemplateBuilder | packages/api/internal/clusters/cluster.go:227-250 | a healthy, compatible builder is returned iff the pool has one |
| BuilderSelection.Cluster.GetOrchestrators | packages/api/internal/clusters/cluster.go:252-261 | exactly the orchestrators, each once |
| BuilderSelection.Shuffle | packages/api/internal/clusters/cluster.go:215-216 | a permutation |
| Connect.PostSandboxesSandboxIDConnect | packages/api/internal/handlers/sandbox_connect.go:24-164 | against any other side the handler goes through one whole conversation |
| Connect.OneConversation | packages/api/internal/handlers/sandbox_connect.go:66-163 | there is only one, so the protocol determines every call and the response |
| Connect.First | packages/api/internal/handlers/sandbox_connect.go:36-59 | exactly which requests are turned down with 400; any other starts with a keep-alive |
| Connect.AfterKeepAlive | packages/api/internal/handlers/sandbox_connect.go:66-103 | what follows each answer: 200, the other side's code, 409, a wait, or a lookup for a missing sandbox |
| Connect.AfterWait | packages/api/internal/handlers/sandbox_connect.go:103-118 | 500 for a failed wait, another keep-alive after the first two, a lookup after the third |
| Connect.AfterLookup | packages/api/internal/handlers/sandbox_connect.go:119-156 | 404 without a snapshot or for another team's, 500 for a failure, a start for the caller's own |
| Connect.AfterStart | packages/api/internal/handlers/sandbox_connect.go:147-163 | 201 with the sandbox, or the other side's code |
| Connect.PausedSandboxIsResumed | packages/api/internal/handlers/sandbox_connect.go:74-163 | a missing sandbox with a snapshot of the caller's team is looked up, started and answered with 201 |
| Connect.OneResponse | packages/api/internal/handlers/sandbox_connect.go:63-163 | exactly one response, last, after at most three keep-alives, three waits, one lookup and one start |
| Connect.StartIsJustified | packages/api/internal/handlers/sandbox_connect.go:118-156 | a start follows a lookup of the caller's own snapshot, and only not-found or three completed waits |
| Connect.KillingEndsIt | packages/api/internal/handlers/sandbox_connect.go:91-95 | after Killing nothing follows but the conflict response |
| Connect.ResponseMeaning | packages/api/internal/handlers/sandbox_connect.go:36-163 | the response carries a sandbox iff that one was kept alive (200) or started (201); a refused request gets 400 and nothing else happens |
| Connect.ShortIdMeaning | packages/api/internal/utils/split.go:11-27 | exactly which composite ids are valid and what they stand for |
| Mounts.ConvertAPIVolumesToOrchestratorVolumes | packages/api/internal/handlers/sandbox_create.go:321-390 | the early checks in order; success iff no mount is faulty, then result i is mount i with its volume; otherwise exactly the faulty mounts with strictly increasing indices and their reasons |
| Mounts.FaultlessIff | packages/api/internal/handlers/sandbox_create.go:356-388 | no mount is faulty iff all volumes are known, all paths are absolute and normal, and no two lead to the same place |
| Mounts.RepeatsAnAcceptedOne | packages/api/internal/handlers/sandbox_create.go:370-375 | a repeated path repeats an accepted mount's |
| Mounts.AcceptedPaths | packages/api/internal/handlers/sandbox_create.go:392-406 | accepted iff absolute and in normal form; different accepted paths lead to different places |
| Mounts.PathFaultTexts | packages/api/internal/handlers/sandbox_create.go:392-406 | the three faults of a path, in order, with their texts |
| Mounts.FaultTexts | packages/api/internal/handlers/sandbox_create.go:357-374 | the faults of a mount, in order, with their texts |
| Mounts.GateMeaning | packages/api/internal/handlers/sandbox_create.go:327-343 | the checks pass iff volumes are enabled and the version is given, valid and at least 0.5.8, and which error it is otherwise |
| Mounts.DedupeVolumeNames | packages/api/internal/handlers/sandbox_create.go:276-288 | the distinct names, each once |
| Mounts.VolumesByName | packages/api/internal/handlers/sandbox_create.go:408-423 | the names of the rows, each with a row of that name |
| Paths.CleanFixesIffNormal | packages/api/internal/handlers/sandbox_create.go:401-403 | a path is its own clean form iff it is the root or plain components with single slashes |
| Paths.CleanIsNormal | packages/api/internal/handlers/sandbox_create.go:401-403 | cleaning yields a normal form that leads to the same place |
| Paths.ResolveLaws | packages/api/internal/handlers/sandbox_create.go:401-403 | empty and `.` components stay put, names are entered, `..` leaves them and goes nowhere from the root |
| Paths.SamePlaceIffSameClean | packages/api/internal/handlers/sandbox_create.go:401-403 | two paths lead to the same place iff they clean to the same path |
| LogWindow.LogQueryWindow | packages/api/internal/clusters/resources.go:34-66 | the window is the wanted one clipped at the retention limit; the final guard never fires |
| LogWindow.ClippedMeaning | packages/api/internal/clusters/resources.go:34-66 | oldest <= start <= end, at most seven days wide, and there is only one such window |
| LogWindow.LaterWindow | packages/api/internal/clusters/resources.go:201 | asked again later with the same cursor, each end moves forward by at most the time between |

## Left out

- Payload columns (cpu, memory, versions, reason, names, user ids) and the reads that only return them.
- `UpdateTemplate` and `UpdateTemplateSpawnCount`, which change only columns of envs that are not modelled.
- The checks made before the registering transaction (quota, cluster, resources) and the cache invalidations in it.
- Deletion.DeletionDoesNotInterfere: the second half, removing the exclusive builds, is modelled as deleting their rows with the cascade; the repository's queries list them but never delete a build row.
- Concurrent statements: two first-time upserts of one sandbox at the same time are not modelled.
- Paging snapshots while they are upserted again: `sandbox_started_at` is rewritten, so `SnapshotListing.WalkSnapshots` is about an unchanging table.
- BuildListing.WalkTeamBuilds: the dashboard handler that chooses among the four variants on every page (by build id, then template id, then alias, each when the one before is empty) and the text encoding of cursors.
- Keyset.Walk: the extra row is requested the way the build list handlers do; the sandbox list's own over-fetching and filtering across running and paused sandboxes is not modelled.
- FcProvider.FcProvider.List: the remote creation time is not modelled, nor the limit and token passed to the remote side, which only affect what it answers.
- The text of a status that is none of the named ones; all such texts count as failed.
- FcLosses.LossHasACause: a listing may go through its reports and its final loop in any order and more than once, which allows more than it does.
- FcProvider.Ttl: whole seconds are taken exactly, without the rounding of very long timeouts through floating point and without overflow of 64-bit durations.
- InstancePool.Store.SyncOutdated: its instances are visited one after another in any order, since they touch different nodes; closing connections is left out.
- BuilderSelection.Shuffle: that it is uniformly random.
- Mounts.ConvertAPIVolumesToOrchestratorVolumes: the semantic-version comparison is a parameter.
- Connect.PostSandboxesSandboxIDConnect: message texts; only codes and the returned sandbox are modelled. Starting a sandbox and keeping one alive are answers of the other side.
- The pending-only trigger handler, template caches, build log fetching from its sources, metrics, authentication, HTTP plumbing and generated clients.
- Single-row queries on teams, keys, tokens and volumes: easy members only.
