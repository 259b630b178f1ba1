/** One directory sync of one tenant: `syncLDAP` and `syncGoogle`. Each reads
    the tenant's members into an index, finds a default team, obtains the
    directory's users, runs the reconcile loop and finally stamps the
    provider's sync config with the time of the run. Any error ends the run
    where it happens; what was written before stays. */
module Sync {
  import opened Js
  import opened Ids
  import opened Store
  import opened Directory
  import opened Reconciler

  /** The answers of the run's unordered reads: the index the database's
      member order produced, the team `findFirst` returned, and the config
      the final `findFirst` returned. */
  datatype Choice = Choice(index: map<string, Id>, team: Option<Id>, config: Option<Id>)

  /** The answers are ones the database could have given at the start of
      the run (the loop writes only members, so the config lookup after it
      sees the same configs). */
  ghost predicate ChoiceValid(choice: Choice, s: State, tenant: Id, provider: string) {
    && IsIndexOf(choice.index, s.members, tenant)
    && TeamChoice(choice.team, s.teams, tenant)
    && ConfigChoice(choice.config, s.configs, tenant, provider)
  }

  ghost function SomeTeam(teams: map<Id, Team>, tenant: Id): (t: Option<Id>)
    ensures TeamChoice(t, teams, tenant)
  {
    if exists k :: k in teams && teams[k].tenantId == tenant then
      Some(var k :| k in teams && teams[k].tenantId == tenant; k)
    else None
  }

  ghost function SomeConfig(configs: map<Id, SyncConfig>, tenant: Id, provider: string): (c: Option<Id>)
    ensures ConfigChoice(c, configs, tenant, provider)
  {
    if exists k :: k in configs && configs[k].tenantId == tenant && configs[k].provider == provider then
      Some(var k :| k in configs && configs[k].tenantId == tenant && configs[k].provider == provider; k)
    else None
  }

  // ---------------------------------------------------------------------
  // The runs as functions of the state
  // ---------------------------------------------------------------------

  /** The reconcile loop followed by the timestamp update; a missing config
      is the TypeError of `findFirst(...)!.id` on null. */
  function Finish(s: State, tenant: Id, choice: Choice, team: Id, steps: seq<Step>, now: Time): Run {
    var r := Reconcile(s, choice.index, tenant, team, now, steps);
    if r.failure.Some? then r
    else match choice.config
      case None => Run(r.state, Some(NullConfig))
      case Some(c) =>
        var w := TouchConfig(r.state, c, now);
        Run(After(r.state, w), ErrorOf(w))
  }

  /** `syncLDAP`: bind, index, search, default team, loop, timestamp. */
  function LdapSync(s: State, tenant: Id, dir: LdapDirectory, choice: Choice, now: Time): Run {
    if dir.bindError.Some? then Run(s, Some(BindFailed(dir.bindError.value)))
    else if dir.search.Failure? then Run(s, Some(SearchFailed(dir.search.error)))
    else if choice.team.None? then Run(s, Some(NoDefaultTeam))
    else Finish(s, tenant, choice, choice.team.value, LdapSteps(dir.search.value), now)
  }

  /** `syncGoogle`: index, default team, paging, loop, timestamp. */
  function GoogleSync(s: State, tenant: Id, dir: GoogleDirectory, choice: Choice, now: Time): Run {
    if choice.team.None? then Run(s, Some(NoDefaultTeam))
    else match AllUsers(dir.responses)
      case Failure(e) => Run(s, Some(e))
      case Success(users) => Finish(s, tenant, choice, choice.team.value, GoogleSteps(users), now)
  }

  // ---------------------------------------------------------------------
  // Properties of a run
  // ---------------------------------------------------------------------

  /** The run succeeds exactly when the loop succeeds and the lookup finds
      an existing config; then that config's `lastSyncedAt` becomes the time
      of the run and no other config changes. On failure every config is
      unchanged. */
  lemma FinishStampsOnlyOnSuccess(s: State, tenant: Id, choice: Choice, team: Id, steps: seq<Step>, now: Time)
    ensures var r := Finish(s, tenant, choice, team, steps, now);
      && (r.failure.None? ==>
            && Reconcile(s, choice.index, tenant, team, now, steps).failure.None?
            && choice.config.Some? && choice.config.value in s.configs
            && r.state.configs == s.configs[choice.config.value := s.configs[choice.config.value].(lastSyncedAt := Some(now))])
      && (r.failure.Some? ==> r.state.configs == s.configs)
      && ((&& Reconcile(s, choice.index, tenant, team, now, steps).failure.None?
           && choice.config.Some? && choice.config.value in s.configs)
          ==> r.failure.None?)
      && r.state.tenants == s.tenants && r.state.teams == s.teams
      && r.state.badges == s.badges && r.state.memberBadges == s.memberBadges
  {
    ReconcileWritesOnlyMembers(s, choice.index, tenant, team, now, steps);
  }

  /** An LDAP run stamps its config exactly when bind, search, team lookup,
      every user and the config lookup all succeed; otherwise no config changes. */
  lemma LdapStampsOnlyOnSuccess(s: State, tenant: Id, dir: LdapDirectory, choice: Choice, now: Time)
    ensures var r := LdapSync(s, tenant, dir, choice, now);
      && (r.failure.None? ==>
            && dir.bindError.None? && dir.search.Success? && choice.team.Some?
            && Reconcile(s, choice.index, tenant, choice.team.value, now, LdapSteps(dir.search.value)).failure.None?
            && choice.config.Some? && choice.config.value in s.configs
            && r.state.configs == s.configs[choice.config.value := s.configs[choice.config.value].(lastSyncedAt := Some(now))])
      && (r.failure.Some? ==> r.state.configs == s.configs)
      && ((&& dir.bindError.None? && dir.search.Success? && choice.team.Some?
           && Reconcile(s, choice.index, tenant, choice.team.value, now, LdapSteps(dir.search.value)).failure.None?
           && choice.config.Some? && choice.config.value in s.configs)
          ==> r.failure.None?)
  {
    if dir.bindError.None? && dir.search.Success? && choice.team.Some? {
      FinishStampsOnlyOnSuccess(s, tenant, choice, choice.team.value, LdapSteps(dir.search.value), now);
    }
  }

  /** A cloud-directory run stamps its config exactly when the team lookup,
      every page, every user and the config lookup succeed. */
  lemma GoogleStampsOnlyOnSuccess(s: State, tenant: Id, dir: GoogleDirectory, choice: Choice, now: Time)
    ensures var r := GoogleSync(s, tenant, dir, choice, now);
      && (r.failure.None? ==>
            && choice.team.Some? && AllUsers(dir.responses).Success?
            && Reconcile(s, choice.index, tenant, choice.team.value, now, GoogleSteps(AllUsers(dir.responses).value)).failure.None?
            && choice.config.Some? && choice.config.value in s.configs
            && r.state.configs == s.configs[choice.config.value := s.configs[choice.config.value].(lastSyncedAt := Some(now))])
      && (r.failure.Some? ==> r.state.configs == s.configs)
      && ((&& choice.team.Some? && AllUsers(dir.responses).Success?
           && Reconcile(s, choice.index, tenant, choice.team.value, now, GoogleSteps(AllUsers(dir.responses).value)).failure.None?
           && choice.config.Some? && choice.config.value in s.configs)
          ==> r.failure.None?)
  {
    if choice.team.Some? && AllUsers(dir.responses).Success? {
      FinishStampsOnlyOnSuccess(s, tenant, choice, choice.team.value, GoogleSteps(AllUsers(dir.responses).value), now);
    }
  }

  /** A failed bind, a failed search or a tenant without a team ends an LDAP
      run before anything is written. */
  lemma LdapEarlyFailureWritesNothing(s: State, tenant: Id, dir: LdapDirectory, choice: Choice, now: Time)
    requires dir.bindError.Some? || dir.search.Failure? || choice.team.None?
    ensures LdapSync(s, tenant, dir, choice, now).state == s
    ensures LdapSync(s, tenant, dir, choice, now).failure.Some?
  {
  }

  /** A tenant without a team, or a listing that fails, ends a cloud run
      before anything is written. */
  lemma GoogleEarlyFailureWritesNothing(s: State, tenant: Id, dir: GoogleDirectory, choice: Choice, now: Time)
    requires choice.team.None? || AllUsers(dir.responses).Failure?
    ensures GoogleSync(s, tenant, dir, choice, now).state == s
    ensures GoogleSync(s, tenant, dir, choice, now).failure.Some?
  {
  }

  /** Incomplete LDAP entries leave no trace: the run over the search
      result ends exactly where the run over its complete entries ends. */
  lemma LdapIgnoresIncompleteEntries(s: State, tenant: Id, entries: seq<LdapEntry>, choice: Choice, now: Time)
    ensures LdapSync(s, tenant, LdapDirectory(None, Success(entries)), choice, now)
         == LdapSync(s, tenant, LdapDirectory(None, Success(CompleteEntries(entries))), choice, now)
  {
    if choice.team.Some? {
      var team := choice.team.value;
      var all := LdapSteps(entries);
      var complete := LdapSteps(CompleteEntries(entries));
      assert Reconcile(s, choice.index, tenant, team, now, all) == Reconcile(s, choice.index, tenant, team, now, complete) by {
        SkipsLeaveNoTrace(s, choice.index, tenant, team, now, all);
        LdapNonSkipsAreComplete(entries);
      }
    }
  }

  /** Users without a primary e-mail, and suspended users, leave no trace. */
  lemma GoogleIgnoresInactiveUsers(s: State, tenant: Id, users: seq<GoogleUser>, choice: Choice, now: Time)
    requires choice.team.Some?
    ensures Finish(s, tenant, choice, choice.team.value, GoogleSteps(users), now)
         == Finish(s, tenant, choice, choice.team.value, GoogleSteps(ActiveUsers(users)), now)
  {
    var team := choice.team.value;
    var all := GoogleSteps(users);
    var active := GoogleSteps(ActiveUsers(users));
    assert Reconcile(s, choice.index, tenant, team, now, all) == Reconcile(s, choice.index, tenant, team, now, active) by {
      SkipsLeaveNoTrace(s, choice.index, tenant, team, now, all);
      GoogleNonSkipsAreActive(users);
    }
  }

  /** A run keeps the database consistent, and through any run, complete or
      not, an existing member keeps its role, team, tenant, on-call status,
      skills and join date. */
  lemma {:induction false} FinishKeeps(s: State, tenant: Id, choice: Choice, team: Id, steps: seq<Step>, now: Time)
    requires ReadyToRun(s, choice.index, tenant, team)
    ensures var r := Finish(s, tenant, choice, team, steps, now);
      && Consistent(r.state)
      && forall k :: k in s.members ==> k in r.state.members && KeepsLocalFields(r.state.members[k], s.members[k])
  {
    ReconcileKeeps(s, choice.index, tenant, team, now, steps);
    var r := Reconcile(s, choice.index, tenant, team, now, steps);
    if r.failure.None? && choice.config.Some? && choice.config.value in r.state.configs {
      var s' := TouchConfig(r.state, choice.config.value, now).value;
      assert s'.configs.Keys == r.state.configs.Keys;
      assert forall k :: k in s'.configs ==> s'.configs[k].tenantId == r.state.configs[k].tenantId;
    }
  }

  lemma LdapSyncKeeps(s: State, tenant: Id, dir: LdapDirectory, choice: Choice, now: Time)
    requires Consistent(s) && ChoiceValid(choice, s, tenant, "ldap")
    ensures var r := LdapSync(s, tenant, dir, choice, now);
      && Consistent(r.state)
      && forall k :: k in s.members ==> k in r.state.members && KeepsLocalFields(r.state.members[k], s.members[k])
  {
    if dir.bindError.None? && dir.search.Success? && choice.team.Some? {
      FinishKeeps(s, tenant, choice, choice.team.value, LdapSteps(dir.search.value), now);
    }
  }

  lemma GoogleSyncKeeps(s: State, tenant: Id, dir: GoogleDirectory, choice: Choice, now: Time)
    requires Consistent(s) && ChoiceValid(choice, s, tenant, "google")
    ensures var r := GoogleSync(s, tenant, dir, choice, now);
      && Consistent(r.state)
      && forall k :: k in s.members ==> k in r.state.members && KeepsLocalFields(r.state.members[k], s.members[k])
  {
    if choice.team.Some? && AllUsers(dir.responses).Success? {
      FinishKeeps(s, tenant, choice, choice.team.value, GoogleSteps(AllUsers(dir.responses).value), now);
    }
  }

  // ---------------------------------------------------------------------
  // The runs on the database object
  // ---------------------------------------------------------------------

  /** The loop and the timestamp update, on the database. */
  method FinishOn(db: Database, tenant: Id, provider: string, index: map<string, Id>, team: Id, steps: seq<Step>, now: Time)
    returns (failure: Option<Error>, ghost config: Option<Id>)
    modifies db
    ensures ConfigChoice(config, old(db.configs), tenant, provider)
    ensures Run(db.Snapshot(), failure) == Finish(old(db.Snapshot()), tenant, Choice(index, Some(team), config), team, steps, now)
  {
    ghost var s0 := db.Snapshot();
    failure := ProcessUsers(db, index, tenant, team, now, steps);
    ReconcileWritesOnlyMembers(s0, index, tenant, team, now, steps);
    if failure.Some? {
      config := SomeConfig(s0.configs, tenant, provider);
      return;
    }
    var found := db.FirstConfigFor(tenant, provider);
    config := found;
    if found.None? {
      failure := Some(NullConfig);
      return;
    }
    failure := db.ConfigTouch(found.value, now);
  }

  /** `syncLDAP(tenantId, config)` against the directory's answers `dir`. */
  method SyncLdap(db: Database, tenant: Id, dir: LdapDirectory, now: Time)
    returns (failure: Option<Error>, ghost choice: Choice)
    modifies db
    ensures ChoiceValid(choice, old(db.Snapshot()), tenant, "ldap")
    ensures Run(db.Snapshot(), failure) == LdapSync(old(db.Snapshot()), tenant, dir, choice, now)
  {
    ghost var s0 := db.Snapshot();
    if dir.bindError.Some? {
      choice := Choice(AnIndex(s0.members, tenant), SomeTeam(s0.teams, tenant), SomeConfig(s0.configs, tenant, "ldap"));
      failure := Some(BindFailed(dir.bindError.value));
      return;
    }
    var index := IndexByExternalId(db.members, tenant);
    if dir.search.Failure? {
      choice := Choice(index, SomeTeam(s0.teams, tenant), SomeConfig(s0.configs, tenant, "ldap"));
      failure := Some(SearchFailed(dir.search.error));
      return;
    }
    var users := dir.search.value;
    var team := db.FirstTeamOf(tenant);
    if team.None? {
      choice := Choice(index, None, SomeConfig(s0.configs, tenant, "ldap"));
      failure := Some(NoDefaultTeam);
      return;
    }
    ghost var config;
    failure, config := FinishOn(db, tenant, "ldap", index, team.value, LdapSteps(users), now);
    choice := Choice(index, team, config);
  }

  /** `syncGoogle(tenantId, config)` against the directory's answers `dir`. */
  method SyncGoogle(db: Database, tenant: Id, dir: GoogleDirectory, now: Time)
    returns (failure: Option<Error>, ghost choice: Choice)
    modifies db
    ensures ChoiceValid(choice, old(db.Snapshot()), tenant, "google")
    ensures Run(db.Snapshot(), failure) == GoogleSync(old(db.Snapshot()), tenant, dir, choice, now)
  {
    ghost var s0 := db.Snapshot();
    var index := IndexByExternalId(db.members, tenant);
    var team := db.FirstTeamOf(tenant);
    if team.None? {
      choice := Choice(index, None, SomeConfig(s0.configs, tenant, "google"));
      failure := Some(NoDefaultTeam);
      return;
    }
    var fetched := FetchAllUsers(dir);
    if fetched.Failure? {
      choice := Choice(index, team, SomeConfig(s0.configs, tenant, "google"));
      failure := Some(fetched.error);
      return;
    }
    ghost var config;
    failure, config := FinishOn(db, tenant, "google", index, team.value, GoogleSteps(fetched.value), now);
    choice := Choice(index, team, config);
  }
}
