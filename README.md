# Directory sync and guarded create routes of an on-call team directory

The application keeps, per tenant, a directory of team members, teams and
badges. It imports members from an organisation's LDAP server or Google
Workspace. This project models that import and the routes that feed it:

- **The directory sync.** `syncLDAP` and `syncGoogle` map each directory user
  to an identity. They match it against the tenant's members through an
  index built once before the loop. A user already in the index has name,
  e-mail and phone refreshed. Any other user is created in the tenant's
  default team with fixed defaults. After the loop the provider's sync
  configuration gets `lastSyncedAt` stamped.
- **The sync drivers.** The scheduled job (`runSync`) and the script's own
  `main` run every configuration in turn, log each failure and keep going;
  both loops have the same body and are one model. The on-demand admin
  route (`POST /api/admin/sync`) runs the tenant's configurations in turn
  and answers with the first problem it meets.
- **The guarded create routes.** Each checks the body, then a uniqueness
  condition, then inserts:
  - sync configuration: one per tenant and provider;
  - tenant: unique domain and customer id, plus its default team and a
    random hex API key;
  - member: known team, unique e-mail, badge assignment by name;
  - badge: unique name, default colour.
  The listing routes of the same resources are modelled too.
- **The request schemas** (`lib/validation.ts`), the client's path table
  (`lib/api-routes.ts`), and two pure pieces of the member pages:
  - the list filter and the name initials;
  - the add-member form's state updates, badge toggle and submit guard.

## How the model is built

- **The database.** It is one object, `Store.Database`, with a map per table,
  a set of member-badge pairs and an id counter. Every write is also a
  function on the value `Store.State`. Each route and each sync is a
  function from the state to the new state and the answer, as `PostBadge`
  or `LdapSync` are. It is also a method on the database whose `ensures`
  ties its effect to that function, as `PostBadgeOn` or `SyncLdap` do. The
  properties are lemmas about the functions.
- **Choices the database makes freely.** These are:
  - which team `findFirst` returns;
  - which configuration the final lookup finds;
  - which member the index keeps when two share an external id;
  - the order of `findMany`.
  They are returned as ghost out-parameters (`Sync.Choice`, the `ids`
  listings). Predicates state which answers are possible.
- **What the directories answer** is a parameter: an `LdapDirectory`, or a
  `GoogleDirectory` with its sequence of page responses. A raw user becomes
  a `Directory.Step`: skipped, applied as a candidate, or a thrown error.
  The reconcile loop is a left fold over the steps (`Reconciler.Reconcile`).
- **The clock.** The time of a run `now` is a parameter.
- **Random values.** The 32 random bytes of an API key are a parameter.
- **Ids.** Generated row ids come from a counter (`Ids.GenId`), which stands
  in for the database's id generator. It is injective, which is all the
  proofs need.
- **An `undefined` field in an update leaves the stored value as it is.**
  This is the object-relational mapper's treatment. So a directory user
  without a phone keeps the member's stored phone.
- **Behaviour of the code that is modelled as written:**
  - `teamUpdateSchema` is written as `extend` only, not `partial()`, so it
    still requires a name (`Validation.TeamUpdateContract`);
  - the badge route's `color || "#000000"` fallback can never apply, since
    the schema rejects an empty colour and supplies the default itself
    (`BadgeRoutes.PostBadgeCreates`);
  - the member route's insert cannot fail after its own e-mail check, so
    its 500 answer cannot occur (`MemberRoutes.CreateCheckedAnswers`);
  - the member route inserts members without a tenant.

## Model

| member | source | states |
|---|---|---|
| Directory.LdapExternalIdIsFirstTruthy | scripts/sync-directory.ts:95 | the LDAP external id is the first truthy one of objectGUID, entryUUID and uid; it is falsy only when all three are |
| Directory.LdapNameEmptyIff | scripts/sync-directory.ts:97 | the mapped name is empty exactly when there is no truthy display name and both given name and surname are defined and all white space |
| Directory.LdapNameRendersUndefined | scripts/sync-directory.ts:97 | without a display name, an undefined given name renders as the word "undefined", and with no surname either the name is "undefined undefined" |
| Directory.LdapStepSkipsIncomplete | scripts/sync-directory.ts:94-102 | an LDAP entry is skipped exactly when its external id, e-mail or name is falsy; otherwise its candidate carries all three, truthy, and the mapping never throws |
| Directory.LdapSteps | scripts/sync-directory.ts:94-102 | the users of the search map one-to-one, in order, to the loop's steps |
| Directory.CompleteEntries | scripts/sync-directory.ts:99-102 | the entries kept for the loop are all complete |
| Directory.LdapNonSkipsAreComplete | scripts/sync-directory.ts:94-102 | dropping the skipped steps leaves exactly the steps of the complete entries, in search order |
| Directory.AllUsersConcatenatesPages | scripts/sync-directory.ts:195-208 | paging that stops at the first page without a continuation token yields the users of all pages up to it, concatenated in page order |
| Directory.AllUsersFailsOnError | scripts/sync-directory.ts:198-208 | a listing error before paging stops fails the whole fetch with that error |
| Directory.FetchAllUsers | scripts/sync-directory.ts:195-208 | the `do ... while (pageToken)` loop computes exactly the paging result `AllUsers` |
| Directory.GoogleSteps | scripts/sync-directory.ts:213-220 | the fetched users map one-to-one, in order, to the loop's steps |
| Directory.ActiveUsers | scripts/sync-directory.ts:213-216 | the users kept for the loop all have a truthy primary e-mail and are not suspended |
| Directory.GoogleNonSkipsAreActive | scripts/sync-directory.ts:213-216 | dropping the skipped steps leaves exactly the steps of the active users, in order |
| Directory.GoogleHasNoCompletenessCheck | scripts/sync-directory.ts:214-220 | a Google user is skipped exactly when it lacks a primary e-mail or is suspended; an undefined id or full name is passed on as it is |
| Reconciler.IndexByExternalId | scripts/sync-directory.ts:44-51 | the index maps every truthy external id of the tenant's members, and only those, to a member of the tenant carrying that id |
| Reconciler.Lookup | scripts/sync-directory.ts:104 | a lookup hits exactly when the external id is defined and indexed, and a hit is an indexed member |
| Reconciler.FailureIsFinal | scripts/sync-directory.ts:151-154 | once a user's write has thrown, no later user changes the state or the error |
| Reconciler.FailureStopsAtOneUser | scripts/sync-directory.ts:94-135 | a failed loop stopped at one user: every user before it succeeded, that user's write threw, and the earlier writes stay |
| Reconciler.SkipsChangeNothing | scripts/sync-directory.ts:99-102 | a run of skipped users leaves the state unchanged and fails nothing |
| Reconciler.SkipsLeaveNoTrace | scripts/sync-directory.ts:99-102 | the loop over all users ends exactly where the loop over the users that are not skipped ends |
| Reconciler.ReconcileWritesOnlyMembers | scripts/sync-directory.ts:104-134 | the loop writes only the members table and the id counter |
| Reconciler.UpdateKeepsEmailsUnique | scripts/sync-directory.ts:108-117 | an update that passed the unique e-mail constraint keeps e-mails unique |
| Reconciler.UpdateKeepsForeignKeys | scripts/sync-directory.ts:108-117 | an update keeps fresh ids and every reference valid |
| Reconciler.UpdateKeeps | scripts/sync-directory.ts:106-118 | a successful update keeps the database consistent and the loop's relation to the starting state |
| Reconciler.CreateKeepsFresh | scripts/sync-directory.ts:121-132 | inserting at the next generated id keeps the generator ahead of every table |
| Reconciler.CreateKeepsEmailsUnique | scripts/sync-directory.ts:121-132 | an insert that passed the unique e-mail constraint keeps e-mails unique |
| Reconciler.CreateKeepsForeignKeys | scripts/sync-directory.ts:121-132 | an insert whose team and tenant exist keeps every reference valid |
| Reconciler.CreateKeeps | scripts/sync-directory.ts:119-134 | a successful create keeps the database consistent and the loop's relation to the starting state |
| Reconciler.StepKeeps | scripts/sync-directory.ts:104-134 | one user's step, whatever its outcome, keeps consistency and the loop's relation to the starting state |
| Reconciler.ReconcileKeeps | scripts/sync-directory.ts:94-135 | the loop keeps the database consistent and writes only members; existing members keep their locally managed fields; unindexed members are untouched; new members carry the sync defaults (what each new row holds, and how many there are, is stated by `ReconcileInserts`) |
| Reconciler.LocallyManagedFieldsSurvive | scripts/sync-directory.ts:106-117 | role, team, tenant, on-call status, skills and join date of every existing member survive a run, complete or not |
| Reconciler.UnindexedMembersUntouched | scripts/sync-directory.ts:104-118 | a member of another tenant or without an external id is left exactly as it was |
| Reconciler.NewMembersHaveDefaults | scripts/sync-directory.ts:119-134 | every member a run creates, complete or not, is the member built from one of its users whose external id the index did not know, with that user's external id, name, e-mail and phone, the run's tenant, the default team, role "Member", no skills and not on call |
| Reconciler.OnlyMembersChange | scripts/sync-directory.ts:94-135 | tenants, teams, badges, assignments and configurations are unchanged by the loop and the database stays consistent |
| Reconciler.StaleIndexCreatesTwice | scripts/sync-directory.ts:49-51 | the index is not refreshed in the loop: two users with the same new external id are both created, under two ids |
| Reconciler.UpdateInserts | scripts/sync-directory.ts:106-118 | a matched user's update adds no row and moves no id |
| Reconciler.CreateInserts | scripts/sync-directory.ts:119-134 | an unknown user's insert adds exactly the member built from it, at the next generated id |
| Reconciler.StepInserts | scripts/sync-directory.ts:99-134 | one more successful user keeps the account of the rows added so far |
| Reconciler.StepKeepsUnhit | scripts/sync-directory.ts:104-134 | one more successful user leaves every member no user was matched to as it was |
| Reconciler.ReconcileInserts | scripts/sync-directory.ts:94-135 | a run that did not fail moved the id counter once per user whose external id the index did not know, put at each new id the member built from the corresponding user, and added no other row |
| Reconciler.ReconcileKeepsUnhit | scripts/sync-directory.ts:104-118 | a run that did not fail left every member no user was matched to exactly as it was |
| Reconciler.LastStepInserts | scripts/sync-directory.ts:94-135 | the last user of a run that did not fail extends the account of the rows the users before it added |
| Reconciler.ReconcileConsistent | scripts/sync-directory.ts:94-135 | every state the loop reaches, complete or not, is consistent |
| Reconciler.ProcessedPrefix | scripts/sync-directory.ts:94-135 | every run ends in the state of a prefix of its users that ran without error, the whole list when the run did not fail |
| Reconciler.MissIsAUser | scripts/sync-directory.ts:104-119 | each user counted as a miss is one of the run's users, and the index does not know its external id |
| Reconciler.ReconcileAddsOnePerMiss | scripts/sync-directory.ts:119-134 | after a run that did not fail the members are the old ones plus one fresh generated id per missed user, none of them an old id |
| Reconciler.ReconcileAddsFromUsers | scripts/sync-directory.ts:119-134 | the j-th missed user has a name and becomes the row at the j-th next generated id, built from its external id, name, e-mail and phone with the sync defaults |
| Reconciler.UnmatchedMembersUntouched | scripts/sync-directory.ts:104-118 | an existing member that no user of the run was matched to keeps its row exactly, whether the run completes or not |
| Reconciler.StepKeepsRow | scripts/sync-directory.ts:104-134 | a user not matched to a member leaves that member's row as it was: an update writes another row, an insert a fresh id |
| Reconciler.NextStepKeepsRow | scripts/sync-directory.ts:94-135 | one more user not matched to a member keeps that member's row, also when it or an earlier user threw |
| Reconciler.LaterStepsKeepRow | scripts/sync-directory.ts:94-135 | the users after a given one that are not matched to a member keep the row that user left, whether the run completes or not |
| Reconciler.ReconcileRefreshesHits | scripts/sync-directory.ts:106-118 | a matched user whose write succeeded sets the member's e-mail, its name and phone when the user has them (an undefined one keeps the earlier value), stamps `updatedAt` and keeps the locally managed fields; unless a later user matches the same member, the run ends with that row, complete or not |
| Reconciler.ProcessUsers | scripts/sync-directory.ts:94-135 | the `for` loop over the users on the database ends in the state and with the error of the fold `Reconcile` |
| Sync.FinishStampsOnlyOnSuccess | scripts/sync-directory.ts:137-147 | `lastSyncedAt` of the looked-up configuration becomes the run's time exactly when the loop and the lookup succeed; on failure no configuration changes; other tables apart from members never change |
| Sync.LdapStampsOnlyOnSuccess | scripts/sync-directory.ts:36-150 | an LDAP run stamps its configuration exactly when bind, search, team lookup, every user and the configuration lookup succeeded |
| Sync.GoogleStampsOnlyOnSuccess | scripts/sync-directory.ts:176-265 | a Google run stamps its configuration exactly when the team lookup, every page, every user and the configuration lookup succeeded |
| Sync.LdapEarlyFailureWritesNothing | scripts/sync-directory.ts:36-91 | a failed bind, a failed search or a tenant without a team ends an LDAP run with an error before anything is written |
| Sync.GoogleEarlyFailureWritesNothing | scripts/sync-directory.ts:186-208 | a tenant without a team or a failed listing ends a Google run with an error before anything is written |
| Sync.LdapIgnoresIncompleteEntries | scripts/sync-directory.ts:99-102 | an LDAP run over the search result ends exactly where a run over its complete entries ends |
| Sync.GoogleIgnoresInactiveUsers | scripts/sync-directory.ts:213-216 | users without a primary e-mail, and suspended users, leave no trace on a Google run |
| Sync.FinishKeeps | scripts/sync-directory.ts:94-147 | the loop and the timestamp keep the database consistent, and existing members keep their locally managed fields |
| Sync.LdapSyncKeeps | scripts/sync-directory.ts:28-157 | an LDAP run keeps the database consistent and never changes the locally managed fields of an existing member |
| Sync.GoogleSyncKeeps | scripts/sync-directory.ts:159-272 | a Google run keeps the database consistent and never changes the locally managed fields of an existing member |
| Sync.FinishOn | scripts/sync-directory.ts:94-147 | the loop and the timestamp update on the database give the state and error of `Finish`, with a configuration lookup the database could answer |
| Sync.SyncLdap | scripts/sync-directory.ts:28-157 | `syncLDAP` on the database gives the state and error of `LdapSync`, with answers the database could give |
| Sync.SyncGoogle | scripts/sync-directory.ts:159-272 | `syncGoogle` on the database gives the state and error of `GoogleSync`, with answers the database could give |
| Orchestrate.DispatchOn | scripts/scheduled-sync.ts:25-28 | provider "ldap" runs the LDAP sync and "google" the Google sync, each with the given tenant |
| Orchestrate.LookupFindsTheRow | scripts/sync-directory.ts:138-142 | with one configuration per tenant and provider, a run's final lookup finds exactly the configuration it was started for |
| Orchestrate.AttemptRow | scripts/scheduled-sync.ts:22-35 | an attempt is "unknown" exactly when the provider is neither "ldap" nor "google", and then changes nothing |
| Orchestrate.SyncEachAttemptsEveryRow | scripts/scheduled-sync.ts:21-36 | every fetched configuration is attempted exactly once, in list order, with its own tenant; an error in one does not stop the later ones |
| Orchestrate.AttemptKeepsConsistent | scripts/scheduled-sync.ts:22-35 | one attempt keeps the database consistent |
| Orchestrate.SyncEachKeepsConsistent | scripts/scheduled-sync.ts:21-36 | the whole scheduled run keeps the database consistent |
| Orchestrate.AttemptStampsOwnRow | scripts/scheduled-sync.ts:25-28 | one attempt stamps exactly its own configuration, and only when its sync succeeded |
| Orchestrate.AttemptExtendsStamped | scripts/scheduled-sync.ts:21-36 | one more attempt extends the stamping of the attempts before it |
| Orchestrate.SyncEachStampsSyncedConfigs | scripts/scheduled-sync.ts:21-36 | after a run, each configuration's `lastSyncedAt` is the run's time exactly when its own attempt synced; failed, unknown and unattempted configurations keep theirs |
| Orchestrate.AttemptOn | scripts/scheduled-sync.ts:22-35 | one pass of the per-configuration loop on the database gives the state and outcome of `AttemptRow` |
| Orchestrate.SyncEachConfig | scripts/scheduled-sync.ts:21-36 | the per-configuration loop on the database gives the state and log of `SyncEach` |
| Orchestrate.SyncAllConfigs | scripts/scheduled-sync.ts:8-44 | `runSync` (and the script's `main`) lists every configuration and runs `SyncEach` over them; it returns normally whatever the syncs do |
| Orchestrate.RouteStep | app/api/admin/sync/route.ts:24-34 | the route's loop halts with UNKNOWN_PROVIDER exactly for an unknown provider, and then changes nothing |
| Orchestrate.HaltIsFinal | app/api/admin/sync/route.ts:24-34 | once the route's loop has halted, no later configuration runs |
| Orchestrate.HaltedRun | app/api/admin/sync/route.ts:24-34 | after a halt the answers for later configurations are never asked for |
| Orchestrate.OnDemandGuards | app/api/admin/sync/route.ts:10-21 | an unknown tenant is refused with 401 before any configuration is read; 404 NO_SYNC_CONFIG is answered, with nothing written, exactly when the tenant has no configuration |
| Orchestrate.HaltStopsAtOneRow | app/api/admin/sync/route.ts:24-34 | a halted loop halted at one configuration, after all configurations before it ran without a halt |
| Orchestrate.OnDemandHaltAnswers | app/api/admin/sync/route.ts:31-43 | a halt at a configuration answers 400 UNKNOWN_PROVIDER naming the provider, or 500 with the message `Store.Message` gives the thrown error; earlier syncs' writes stay |
| Orchestrate.NoHaltRanAll | app/api/admin/sync/route.ts:24-39 | a loop that ended without a halt ran every configuration without one |
| Orchestrate.OnDemandOkOnlyIfAllSynced | app/api/admin/sync/route.ts:36-39 | the route answers 200 only when every configuration of the tenant has a known provider and synced without error |
| Orchestrate.RouteStepOn | app/api/admin/sync/route.ts:25-34 | one pass of the route's loop on the database gives the state and halt of `RouteStep` |
| Orchestrate.SyncTenantConfigs | app/api/admin/sync/route.ts:24-34 | the route's loop on the database gives the state and halt of `SyncInOrder` |
| Orchestrate.OnDemandSync | app/api/admin/sync/route.ts:8-44 | `POST /api/admin/sync` on the database gives the state and answer of `OnDemand` over the tenant's listed configurations |
| AdminRoutes.SyncConfigSchemaContract | app/api/admin/sync-config/route.ts:8-11 | the schema accepts exactly a provider "ldap" or "google" with a configuration object, and outputs those two fields |
| AdminRoutes.PostSyncConfigAnswers | app/api/admin/sync-config/route.ts:32-56 | 401 exactly for an unknown tenant, 400 VALIDATION_ERROR exactly for a rejected body, 400 DUPLICATE_CONFIG exactly when the tenant has the provider, otherwise success; errors write nothing |
| AdminRoutes.PostSyncConfigCreates | app/api/admin/sync-config/route.ts:59-69 | the one new row is the tenant's configuration for the body's provider and settings, never synced, under the next id, and it is the answer |
| AdminRoutes.PostSyncConfigKeepsInvariants | app/api/admin/sync-config/route.ts:47-67 | the route keeps at most one configuration per tenant and provider, and the database consistent |
| AdminRoutes.NewConfigKeepsUnique | app/api/admin/sync-config/route.ts:47-67 | adding a configuration for a tenant and provider that has none keeps configurations unique |
| AdminRoutes.PostSyncConfigFindable | app/api/admin/sync-config/route.ts:59-67 | after a creation, a sync's lookup of that tenant and provider can only find the new configuration |
| AdminRoutes.PostSyncConfigOn | app/api/admin/sync-config/route.ts:32-74 | the route on the database gives the state and answer of `PostSyncConfig` |
| AdminRoutes.GetSyncConfigsListsTenant | app/api/admin/sync-config/route.ts:14-29 | the listing holds exactly the tenant's configurations, each once with its stored fields; an unknown tenant gets 401 |
| AdminRoutes.GetSyncConfigsOn | app/api/admin/sync-config/route.ts:20-24 | the listing on the database is `GetSyncConfigs` over a listing of the tenant's configurations |
| AdminRoutes.TenantSchemaContract | app/api/admin/tenants/route.ts:11-15 | the schema accepts exactly non-empty name, domain and customer id strings and outputs those three fields |
| AdminRoutes.PostTenantAnswers | app/api/admin/tenants/route.ts:38-55 | 400 VALIDATION_ERROR exactly for a rejected body, 400 DUPLICATE_TENANT exactly when a tenant has the domain or the customer id, otherwise success; errors write nothing |
| AdminRoutes.PostTenantCreates | app/api/admin/tenants/route.ts:57-79 | a tenant with the body's fields and the encoded key, and one team "Default Team" for it, are the only rows added |
| AdminRoutes.PostTenantApiKey | app/api/admin/tenants/route.ts:58 | the API key is 64 lower-case hex digits that decode back to the 32 random bytes |
| AdminRoutes.PostTenantKeepsInvariants | app/api/admin/tenants/route.ts:47-77 | the route keeps domains and customer ids unique and the database consistent |
| AdminRoutes.NewTenantKeepsUnique | app/api/admin/tenants/route.ts:47-55 | adding a tenant whose domain and customer id are unused keeps tenants unique |
| AdminRoutes.PostTenantHasDefaultTeam | app/api/admin/tenants/route.ts:71-77 | the new tenant has exactly one team, so a sync's default-team lookup for it finds that team |
| AdminRoutes.PostTenantOn | app/api/admin/tenants/route.ts:34-84 | the route on the database gives the state and answer of `PostTenant` |
| Hex.NibbleValue | app/api/admin/tenants/route.ts:58 | a character has a nibble value exactly when it is a lower-case hex digit, and the value's digit is that character |
| Hex.Encode | app/api/admin/tenants/route.ts:58 | hex text is twice as long as the bytes and all lower-case hex digits |
| Hex.DecodeEncode | app/api/admin/tenants/route.ts:58 | decoding the hex text of bytes gives back the bytes |
| Http.ResolveTenant | lib/tenant-utils.ts:16-30 | the tenant is found exactly when its id is in the tenants table, and it is that row |
| MemberRoutes.ReportedPhone | app/api/members/route.ts:32 | `phone \|\| undefined` reports a phone exactly when it is defined and not empty, and then unchanged |
| MemberRoutes.ViewBadges | app/api/members/route.ts:30 | a record names exactly the badges of the member when given them each once |
| MemberRoutes.BadgesOfExist | app/api/members/route.ts:30 | every badge assigned to a member exists |
| MemberRoutes.ListMembersDefined | app/api/members/route.ts:9-19 | what the database lists can be rendered: every member's team and every listed badge exist |
| MemberRoutes.ListMembersContract | app/api/members/route.ts:22-34 | the listing has one record per member, each the member's own record, and every member is listed |
| MemberRoutes.ListMembersBadges | app/api/members/route.ts:30 | each listed member carries the names of exactly its assigned badges |
| MemberRoutes.GetMembersOn | app/api/members/route.ts:7-41 | the listing on the database is `ListMembers` over listings of the members and of each member's badges |
| MemberRoutes.ParseMember | app/api/members/route.ts:46-52 | the body's fields are read exactly when the schema accepts it, with false and [] for absent flag and lists |
| MemberRoutes.CreateCheckedAnswers | app/api/members/route.ts:55-70 | 404 NOT_FOUND exactly for an unknown team, then 400 DUPLICATE_EMAIL exactly for a used e-mail, otherwise success, never 500; errors write nothing |
| MemberRoutes.PostMemberAnswers | app/api/members/route.ts:46-50 | 400 VALIDATION_ERROR exactly for a rejected body, with nothing written; otherwise the checked creation on the body's fields |
| MemberRoutes.CreateCheckedCreates | app/api/members/route.ts:73-114 | the new member has the body's fields, no tenant and no external id, under the next id, with the requested existing badges; nothing else changes |
| MemberRoutes.CreateCheckedBadges | app/api/members/route.ts:89-114 | the new member's badges are exactly the existing badges whose name was requested |
| MemberRoutes.CreateCheckedKeepsConsistent | app/api/members/route.ts:55-114 | the route keeps e-mails unique and the database consistent |
| MemberRoutes.NewMemberKeepsConsistent | app/api/members/route.ts:73-86 | inserting a member of an existing team with an unused e-mail keeps the database consistent |
| MemberRoutes.CreateCheckedResponse | app/api/members/route.ts:128-140 | the answer carries the new member's fields, its team's name and reported phone, and exactly the requested names that name a badge |
| MemberRoutes.PostMemberKeepsConsistent | app/api/members/route.ts:44-145 | the route as a whole keeps the database consistent |
| MemberRoutes.AssignRequestedOn | app/api/members/route.ts:89-114 | the badge step on the database assigns the existing requested badges |
| MemberRoutes.CreateCheckedOn | app/api/members/route.ts:55-140 | the route after validation on the database gives the state and answer of `CreateChecked`, listing exactly the member's badges |
| MemberRoutes.PostMemberOn | app/api/members/route.ts:44-145 | `POST /api/members` on the database gives the state and answer of `PostMember` |
| BadgeRoutes.ListBadgesContract | app/api/badges/route.ts:14-20 | the listing holds every badge exactly once, each with its stored fields |
| BadgeRoutes.GetBadgesOn | app/api/badges/route.ts:7-27 | the listing on the database is `ListBadges` over a listing of the badges |
| BadgeRoutes.ParseBadge | app/api/badges/route.ts:32-38 | the body's fields are read exactly when the schema accepts it, with "" and "#000000" for absent description and colour |
| BadgeRoutes.PostBadgeAnswers | app/api/badges/route.ts:32-47 | 400 VALIDATION_ERROR exactly for a rejected body, 400 DUPLICATE_NAME exactly for a used name, otherwise success, never 500; errors write nothing |
| BadgeRoutes.PostBadgeCreates | app/api/badges/route.ts:49-63 | the new badge has the body's name, its description or "", its colour or "#000000" (always a well-formed colour), and the answer echoes it |
| BadgeRoutes.DefaultColorIsColor | app/api/badges/route.ts:53 | the default colour "#000000" is a well-formed colour |
| BadgeRoutes.PostBadgeKeepsInvariants | app/api/badges/route.ts:41-55 | the route keeps badge names unique and the database consistent |
| BadgeRoutes.PostBadgeOn | app/api/badges/route.ts:30-68 | `POST /api/badges` on the database gives the state and answer of `PostBadge` |
| Validation.GroupsMatchClosedForm | lib/validation.ts:38 | `([0-9A-F]{3}){lo,hi}$` matches exactly a run of hex digits whose length is a multiple of three between 3·lo and 3·hi |
| Validation.ColorPatternClosedForm | lib/validation.ts:38 | the colour pattern accepts exactly "#" followed by three or six hex digits of either case |
| Validation.TeamCreateContract | lib/validation.ts:4-7 | a team needs a name of 1 to 100 characters; the description has at most 500 and defaults to "" |
| Validation.TeamUpdateContract | lib/validation.ts:9-11 | the team update schema adds a non-empty id to the creation rules, which stay required |
| Validation.MemberCreateContract | lib/validation.ts:14-23 | accepts exactly a name of 1 to 100, an e-mail, a non-empty role and team id and well-typed optional fields; defaults isOnCall to false and skills and badges to [] |
| Validation.RequiredPartialContract | lib/validation.ts:25-30 | after `partial().required({ key })` the key must pass its own schema, other fields are checked only when given, and a missing field gets no default |
| Validation.MemberUpdateContract | lib/validation.ts:25-30 | the member update needs a non-empty id; every other field is checked only when given and is not defaulted |
| Validation.MemberCreateBodyUpdates | lib/validation.ts:25-30 | every accepted creation body with a non-empty id is an accepted update body |
| Validation.BadgeCreateContract | lib/validation.ts:33-40 | a badge needs a name of 1 to 50; the description has at most 200 and defaults to ""; the colour must be well-formed and defaults to "#000000" |
| Validation.BadgeUpdateContract | lib/validation.ts:42-47 | the badge update needs a non-empty id; every other field is checked only when given and is not defaulted |
| Validation.BadgeAssignmentContract | lib/validation.ts:50-52 | a badge assignment is accepted exactly with a non-empty badge id |
| Js.Or | scripts/sync-directory.ts:95-96 | `a \|\| b` is truthy exactly when one side is, and is `b` whenever `a` is falsy |
| Js.OrElse | app/api/badges/route.ts:52-53 | `a \|\| b` on strings is `a` unless `a` is empty |
| Js.Render | scripts/sync-directory.ts:97 | a template string renders an undefined value as the text "undefined" |
| Js.TrimStart | scripts/sync-directory.ts:97 | the result is a suffix, what was dropped is white space, and it does not start with white space |
| Js.TrimEnd | scripts/sync-directory.ts:97 | the result is a prefix, what was dropped is white space, and it does not end with white space |
| Js.Trim | scripts/sync-directory.ts:97 | `trim()` is empty exactly for all-white-space text, and otherwise starts and ends with a non-space |
| Js.Utf16Length | lib/validation.ts:5 | the string length zod checks counts a character outside the Basic Multilingual Plane twice |
| Js.Filter | app/members/page.tsx:34-44 | the filter keeps exactly the elements that pass, and is never longer |
| Js.FilterConcat | app/members/page.tsx:34-44 | filtering keeps order: the filter of a concatenation is the concatenation of the filters |
| Js.FilterTwice | app/members/page.tsx:34-44 | filtering twice is filtering once by both tests |
| Js.Lower | app/members/page.tsx:37-38 | lowering keeps the length and lowers each character |
| Js.LowerKeepsIncludes | app/members/page.tsx:37-38 | lowering both sides keeps an occurrence |
| Js.Split | app/members/page.tsx:167-168 | `split(" ")` yields at least one piece, and none contains a space |
| Js.JoinSplit | app/members/page.tsx:167-168 | joining the pieces with spaces gives back the string |
| Js.SplitAtSpace | app/members/page.tsx:167-168 | a space splits a string into the pieces before it and the pieces after it |
| MembersPage.FilteredMembersContract | app/members/page.tsx:34-44 | a member is shown exactly when it passes the search, role and team tests; the shown members keep their order and are never more than the members |
| MembersPage.NoFilterShowsAll | app/members/page.tsx:36-41 | with no search text and no filter every member is shown, in order |
| MembersPage.SearchIgnoresCase | app/members/page.tsx:37-38 | the search ignores letter case, and an exact occurrence in the name or e-mail always passes |
| MembersPage.RoleFilterNarrows | app/members/page.tsx:40 | setting the role filter removes exactly the members of other roles from the result |
| MembersPage.TeamFilterNarrows | app/members/page.tsx:41 | setting the team filter removes exactly the members of other teams from the result |
| MembersPage.SearchNarrows | app/members/page.tsx:35-38 | search text removes exactly the members that do not match it from the result |
| MembersPage.FirstCharsContract | app/members/page.tsx:169-170 | one initial per non-empty piece, each the first character of a piece, none a space |
| MembersPage.InitialsContract | app/members/page.tsx:167-170 | the initials are one character per word, each from the name and none a space, and the first is the name's first character when that is not a space |
| MembersPage.InitialsAtSpace | app/members/page.tsx:167-170 | a space between two parts of a name joins their initials, so extra spaces add nothing |
| AddMemberPage.SetTextChangesOnlyItsField | app/members/add/page.tsx:36-43 | the change and select handlers set their field and leave every other field unchanged; setting the old value back restores the form |
| AddMemberPage.SetOnCallChangesOnlyItsField | app/members/add/page.tsx:45-47 | the checkbox handler sets the on-call flag and nothing else |
| AddMemberPage.ToggleContract | app/members/add/page.tsx:49-58 | an unchosen badge is appended; the toggled badge ends up chosen exactly when it was not; other badges stay; the list shrinks exactly when the badge was chosen |
| AddMemberPage.ToggleRemovesInOrder | app/members/add/page.tsx:52-53 | removing a chosen badge keeps the other badges in their order |
| AddMemberPage.ToggleKeepsDistinct | app/members/add/page.tsx:49-58 | toggling keeps the badge list free of duplicates |
| AddMemberPage.ToggleTwiceRestores | app/members/add/page.tsx:49-58 | toggling an unchosen badge twice restores the list |
| AddMemberPage.SubmitContract | app/members/add/page.tsx:63-75 | the form is sent, unchanged, exactly when name, e-mail, role and team are all filled in; on-call flag and badges play no part; the initial form is rejected |
| ApiPaths.ListIsCreate | lib/api-routes.ts:7-29 | for every resource, listing and creating use the same path |
| ApiPaths.DetailUpdateDeleteAgree | lib/api-routes.ts:8-31 | reading, updating and deleting one row use the same path |
| ApiPaths.DetailExtendsList | lib/api-routes.ts:7-28 | a detail path is the list path, a slash and the id |
| ApiPaths.MemberBadgePaths | lib/api-routes.ts:12-14 | a member's badges are added at their listing path, and one is removed at that path, a slash and its id |
| ApiPaths.TeamMemberPaths | lib/api-routes.ts:22-24 | a team's members are added at their listing path, and one is removed at that path, a slash and its id |
| ApiPaths.DetailInjective | lib/api-routes.ts:8-28 | distinct ids give distinct detail paths, for every resource |
| ApiPaths.PathsUnderResource | lib/api-routes.ts:5-33 | every path begins with a slash and its resource's name, followed by nothing or a slash |
| Store.CreateConfigKeepsConsistent | app/api/admin/sync-config/route.ts:59-67 | inserting a configuration of an existing tenant keeps the database consistent |
| Store.CreateTenantKeepsConsistent | app/api/admin/tenants/route.ts:61-68 | inserting a tenant keeps the database consistent |
| Store.CreateTeamKeepsConsistent | app/api/admin/tenants/route.ts:71-77 | inserting a team of an existing tenant keeps the database consistent |
| Store.CreateBadgeKeepsConsistent | app/api/badges/route.ts:49-55 | inserting a badge keeps the database consistent |
| Store.AddMemberBadgesKeepsConsistent | app/api/members/route.ts:104-113 | assigning existing badges to existing members keeps the database consistent; a pair already present is not duplicated |
| Store.Database.MemberUpdate | scripts/sync-directory.ts:108-117 | the update on the database has the state and error of `UpdateMember`: a missing row or a used e-mail throws, an undefined name or phone is kept |
| Store.Database.MemberCreate | scripts/sync-directory.ts:121-132 | the insert on the database has the state and error of `CreateMember`: a used e-mail throws, otherwise the row gets the next id |
| Store.Database.ConfigTouch | scripts/sync-directory.ts:138-147 | the timestamp update sets `lastSyncedAt` of an existing configuration and throws for a missing one |
| Store.Database.FirstTeamOf | scripts/sync-directory.ts:85-87 | `findFirst` returns some team of the tenant, or nothing exactly when it has none |
| Store.Database.FirstTenantMatching | app/api/admin/tenants/route.ts:47-51 | the lookup returns a tenant with the domain or the customer id, or nothing exactly when there is none |
| Store.Database.FirstConfigFor | scripts/sync-directory.ts:140-142 | the lookup returns some configuration of the tenant and provider, or nothing exactly when there is none |
| Store.ListKeys | app/api/badges/route.ts:9-11 | a `findMany` lists every row exactly once, in some order |
| Store.FindConfigs | app/api/admin/sync-config/route.ts:20-22 | `syncConfig.findMany` lists every matching configuration exactly once, in some order |

## Left out

- The LDAP client, the Google OAuth client and its directory SDK, and the database client. The directories' answers are parameters. The database is the in-memory `Store.Database`.
- The time of a run and the random bytes of an API key. They are parameters.
- Logging, `unbind`/`destroy`, `$disconnect`, the cron schedule, the start-up run and `process.exit`. They do not change the data.
- Request and response objects and JSON parsing. A body is a map from keys to JSON values, so a body that is not a JSON object is not modelled. A rejected body's error message (zod's report) is not rendered.
- The request's tenant id and API key are constants in the source. Their "tenant required" branch never fires and is not modelled.
- `GET /api/admin/tenants` is not part of this model. It is a listing of tenants ordered by name.
- The 500 answers of each route's `catch`: the model raises no database failure besides those listed under `Store.Error`. The same goes for the outer `try` of `runSync` and `main`: listing the configurations cannot fail in the model.
- Timestamps stay numbers; `toISOString()` is not modelled.
- Concurrency: overlapping sync runs, and a create racing another create between its check and its insert.
- Orderings the database chooses:
  - `orderBy: { name: "asc" }` of the member and badge listings;
  - the order of `findMany`;
  - which row `findFirst` returns.
  These are parameters constrained only to be possible answers.
- Store.Database.MemberUpdate: an update error raised by the database other than a missing row or a used e-mail is not modelled.
- Reconciler.ProcessUsers: every write of one run carries the single time `now`, while the source reads the clock at each write.
- Directory.FetchAllUsers: the directory's responses are a finite sequence. A run that needs more pages than given ends with `DirectoryExhausted`, an artefact of the model.
- Directory.LdapSteps: LDAP attribute values are single optional strings; multi-valued attributes are not modelled.
- Validation.MemberCreateContract: zod's e-mail check is the parameter `isEmail`, not a definition of e-mail syntax.
- Js.Lower: lowers ASCII letters only; JavaScript's `toLowerCase` covers all of Unicode.
- MembersPage.InitialsContract: `n[0]` is taken per character, while JavaScript takes one UTF-16 code unit, which differs outside the Basic Multilingual Plane.
- AddMemberPage.SetTextChangesOnlyItsField: covers the four text fields of the form only. An input with another name would add a new key.
- Js.Filter: its contract states membership, not multiplicity. Order is stated by `Js.FilterConcat`.
- Ids.GenId: generated ids come from a counter instead of the database's random id generator.
- Store.Message: the database client's error texts are abbreviated to their last line; the directory clients' texts are the reasons they report.
