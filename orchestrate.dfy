/** The drivers of the directory syncs. The scheduled job and the command-line
    entry point fetch every sync config and attempt each one in turn, logging
    and skipping over errors. The on-demand admin route syncs the configs of
    one tenant in turn and answers with the first problem it meets. */
module Orchestrate {
  import opened Js
  import opened Ids
  import opened Store
  import opened Directory
  import opened Reconciler
  import opened Sync
  import opened Http

  /** What the directories behind one config answer to one attempt. */
  datatype Feed = Feed(ldap: LdapDirectory, google: GoogleDirectory)

  /** A row `syncConfig.findMany` returned: the config's id and its fields. */
  type Row = (Id, SyncConfig)

  function RowIds(rows: seq<Row>): (ids: seq<Id>)
    ensures |ids| == |rows| && forall i :: 0 <= i < |rows| ==> ids[i] == rows[i].0
  {
    seq(|rows|, i requires 0 <= i < |rows| => rows[i].0)
  }

  /** The rows are a listing of the configs (of one tenant, when given), each
      with its fields as stored. */
  ghost predicate RowsOf(rows: seq<Row>, configs: map<Id, SyncConfig>, tenant: Option<Id>) {
    && ListsConfigs(RowIds(rows), configs, tenant)
    && forall i :: 0 <= i < |rows| ==> rows[i].0 in configs && rows[i].1 == configs[rows[i].0]
  }

  predicate Known(provider: string) {
    provider == "ldap" || provider == "google"
  }

  /** `if (provider === "ldap") syncLDAP(...) else if (provider === "google") syncGoogle(...)` */
  function Dispatch(s: State, tenant: Id, provider: string, feed: Feed, choice: Choice, now: Time): Run
    requires Known(provider)
  {
    if provider == "ldap" then LdapSync(s, tenant, feed.ldap, choice, now)
    else GoogleSync(s, tenant, feed.google, choice, now)
  }

  /** The choices of a call are ones its database could have made. */
  ghost predicate DispatchValid(s: State, tenant: Id, provider: string, choice: Choice) {
    ChoiceValid(choice, s, tenant, provider)
  }

  /** The run on the database object. */
  method DispatchOn(db: Database, tenant: Id, provider: string, feed: Feed, now: Time)
    returns (failure: Option<Error>, ghost choice: Choice)
    requires Known(provider)
    modifies db
    ensures DispatchValid(old(db.Snapshot()), tenant, provider, choice)
    ensures Run(db.Snapshot(), failure) == Dispatch(old(db.Snapshot()), tenant, provider, feed, choice, now)
  {
    if provider == "ldap" {
      failure, choice := SyncLdap(db, tenant, feed.ldap, now);
    } else {
      failure, choice := SyncGoogle(db, tenant, feed.google, now);
    }
  }

  /** With one config per tenant and provider, a run's final lookup finds
      exactly the config it was started for. */
  lemma LookupFindsTheRow(s: State, id: Id, choice: Choice)
    requires ConfigsUnique(s.configs) && id in s.configs
    requires ConfigChoice(choice.config, s.configs, s.configs[id].tenantId, s.configs[id].provider)
    ensures choice.config == Some(id)
  {
  }

  // ---------------------------------------------------------------------
  // Every config, errors isolated: `runSync` and `main`
  // ---------------------------------------------------------------------

  datatype Outcome = Synced | Failed(error: Error) | Unknown

  /** One line of the run's log: the config, its tenant, and what happened. */
  datatype Attempt = Attempt(config: Id, tenant: Id, outcome: Outcome)

  datatype Sweep = Sweep(state: State, log: seq<Attempt>)

  /** The body of the per-config `try`: an unknown provider only warns, an
      error is caught and logged. */
  function AttemptRow(s: State, row: Row, feed: Feed, choice: Choice, now: Time): (r: (State, Outcome))
    ensures r.1.Unknown? <==> !Known(row.1.provider)
    ensures r.1.Unknown? ==> r.0 == s
  {
    if !Known(row.1.provider) then (s, Unknown)
    else
      var d := Dispatch(s, row.1.tenantId, row.1.provider, feed, choice, now);
      (d.state, if d.failure.Some? then Failed(d.failure.value) else Synced)
  }

  /** The loop over the fetched rows, as a left fold; `choices[i]` holds the
      database's answers to attempt i. */
  function SyncEach(s: State, rows: seq<Row>, feed: Id -> Feed, choices: seq<Choice>, now: Time): Sweep
    requires |choices| == |rows|
    decreases |rows|
  {
    if rows == [] then Sweep(s, [])
    else
      var n := |rows| - 1;
      var sw := SyncEach(s, rows[..n], feed, choices[..n], now);
      var (s', o) := AttemptRow(sw.state, rows[n], feed(rows[n].0), choices[n], now);
      Sweep(s', sw.log + [Attempt(rows[n].0, rows[n].1.tenantId, o)])
  }

  /** Each attempt that reaches a provider's sync does so with answers its
      database could give in the state the earlier attempts left. */
  ghost predicate SweepChoicesValid(s0: State, rows: seq<Row>, feed: Id -> Feed, choices: seq<Choice>, now: Time)
    requires |choices| == |rows|
    decreases |rows|
  {
    rows == [] ||
      var n := |rows| - 1;
      && SweepChoicesValid(s0, rows[..n], feed, choices[..n], now)
      && (Known(rows[n].1.provider) ==>
            DispatchValid(SyncEach(s0, rows[..n], feed, choices[..n], now).state, rows[n].1.tenantId, rows[n].1.provider, choices[n]))
  }

  /** One more row: the fold's last step, and the validity of its answers. */
  lemma SyncEachSnoc(s0: State, rows: seq<Row>, row: Row, feed: Id -> Feed, choices: seq<Choice>, choice: Choice, now: Time)
    requires |choices| == |rows|
    ensures var sw := SyncEach(s0, rows, feed, choices, now);
      var step := AttemptRow(sw.state, row, feed(row.0), choice, now);
      && SyncEach(s0, rows + [row], feed, choices + [choice], now) == Sweep(step.0, sw.log + [Attempt(row.0, row.1.tenantId, step.1)])
      && (SweepChoicesValid(s0, rows + [row], feed, choices + [choice], now) <==>
            && SweepChoicesValid(s0, rows, feed, choices, now)
            && (Known(row.1.provider) ==> DispatchValid(sw.state, row.1.tenantId, row.1.provider, choice)))
  {
    var rs, cs := rows + [row], choices + [choice];
    assert rs[..|rows|] == rows && cs[..|rows|] == choices;
  }

  /** Every fetched config is attempted exactly once, in list order, with
      its own tenant; the attempt is logged as "unknown" exactly when its
      provider is neither "ldap" nor "google". */
  lemma {:induction false} SyncEachAttemptsEveryRow(s: State, rows: seq<Row>, feed: Id -> Feed, choices: seq<Choice>, now: Time)
    requires |choices| == |rows|
    ensures var sw := SyncEach(s, rows, feed, choices, now);
      && |sw.log| == |rows|
      && forall i :: 0 <= i < |rows| ==>
           && sw.log[i].config == rows[i].0
           && sw.log[i].tenant == rows[i].1.tenantId
           && (sw.log[i].outcome.Unknown? <==> !Known(rows[i].1.provider))
    decreases |rows|
  {
    if rows != [] {
      var n := |rows| - 1;
      SyncEachAttemptsEveryRow(s, rows[..n], feed, choices[..n], now);
      var prev := SyncEach(s, rows[..n], feed, choices[..n], now);
      var step := AttemptRow(prev.state, rows[n], feed(rows[n].0), choices[n], now);
      var log := SyncEach(s, rows, feed, choices, now).log;
      assert log == prev.log + [Attempt(rows[n].0, rows[n].1.tenantId, step.1)];
      forall i | 0 <= i < n
        ensures log[i] == prev.log[i] && rows[..n][i] == rows[i]
      {
      }
    }
  }

  /** The rows are distinct configs, each with its fields as stored. */
  ghost predicate RowsMatch(rows: seq<Row>, configs: map<Id, SyncConfig>) {
    && (forall i, j :: 0 <= i < j < |rows| ==> rows[i].0 != rows[j].0)
    && forall i :: 0 <= i < |rows| ==> rows[i].0 in configs && rows[i].1 == configs[rows[i].0]
  }

  lemma RowsOfMatch(rows: seq<Row>, configs: map<Id, SyncConfig>, tenant: Option<Id>)
    requires RowsOf(rows, configs, tenant)
    ensures RowsMatch(rows, configs)
  {
    var ids := RowIds(rows);
    forall i, j | 0 <= i < j < |rows| ensures rows[i].0 != rows[j].0 {
      assert ids[i] == rows[i].0 && ids[j] == rows[j].0;
    }
  }

  /** The configs the attempts leave: the same ones, differing at most in
      `lastSyncedAt`. */
  ghost predicate SameConfigs(configs: map<Id, SyncConfig>, configs0: map<Id, SyncConfig>) {
    && configs.Keys == configs0.Keys
    && forall k :: k in configs ==> configs[k] == configs0[k].(lastSyncedAt := configs[k].lastSyncedAt)
  }

  lemma SameConfigsKeepUnique(configs: map<Id, SyncConfig>, configs0: map<Id, SyncConfig>)
    requires SameConfigs(configs, configs0) && ConfigsUnique(configs0)
    ensures ConfigsUnique(configs)
  {
    forall a, b | a in configs && b in configs && a != b
      ensures configs[a].tenantId != configs[b].tenantId || configs[a].provider != configs[b].provider
    {
      assert configs[a].tenantId == configs0[a].tenantId && configs[a].provider == configs0[a].provider;
      assert configs[b].tenantId == configs0[b].tenantId && configs[b].provider == configs0[b].provider;
    }
  }

  /** One attempt keeps the database consistent. */
  lemma AttemptKeepsConsistent(s: State, row: Row, feed: Feed, choice: Choice, now: Time)
    requires Consistent(s)
    requires Known(row.1.provider) ==> DispatchValid(s, row.1.tenantId, row.1.provider, choice)
    ensures Consistent(AttemptRow(s, row, feed, choice, now).0)
  {
    if row.1.provider == "ldap" {
      LdapSyncKeeps(s, row.1.tenantId, feed.ldap, choice, now);
    } else if row.1.provider == "google" {
      GoogleSyncKeeps(s, row.1.tenantId, feed.google, choice, now);
    }
  }

  /** The scheduled run keeps the database consistent. */
  lemma {:induction false} SyncEachKeepsConsistent(s0: State, rows: seq<Row>, feed: Id -> Feed, choices: seq<Choice>, now: Time)
    requires Consistent(s0) && |choices| == |rows| && SweepChoicesValid(s0, rows, feed, choices, now)
    ensures Consistent(SyncEach(s0, rows, feed, choices, now).state)
    decreases |rows|
  {
    if rows != [] {
      var n := |rows| - 1;
      SyncEachKeepsConsistent(s0, rows[..n], feed, choices[..n], now);
      AttemptKeepsConsistent(SyncEach(s0, rows[..n], feed, choices[..n], now).state, rows[n], feed(rows[n].0), choices[n], now);
    }
  }

  /** One attempt stamps exactly its own config, and only when its sync
      succeeded. */
  lemma AttemptStampsOwnRow(s0: State, s: State, row: Row, feed: Feed, choice: Choice, now: Time)
    requires ConfigsUnique(s0.configs) && SameConfigs(s.configs, s0.configs)
    requires row.0 in s0.configs && row.1 == s0.configs[row.0]
    requires Known(row.1.provider) ==> DispatchValid(s, row.1.tenantId, row.1.provider, choice)
    ensures var (s', o) := AttemptRow(s, row, feed, choice, now);
      s'.configs == (if o.Synced? then s.configs[row.0 := s.configs[row.0].(lastSyncedAt := Some(now))] else s.configs)
  {
    if Known(row.1.provider) {
      SameConfigsKeepUnique(s.configs, s0.configs);
      var tenant, provider := row.1.tenantId, row.1.provider;
      if provider == "ldap" {
        LdapStampsOnlyOnSuccess(s, tenant, feed.ldap, choice, now);
      } else {
        GoogleStampsOnlyOnSuccess(s, tenant, feed.google, choice, now);
      }
      var r := Dispatch(s, tenant, provider, feed, choice, now);
      if r.failure.None? {
        LookupFindsTheRow(s, row.0, choice);
      }
    }
  }

  /** The configs after a run: the same configs as before; each attempted
      config's `lastSyncedAt` is the time of the run exactly when its own
      attempt synced, and every other config keeps its old value. */
  ghost predicate Stamped(configs: map<Id, SyncConfig>, configs0: map<Id, SyncConfig>, rows: seq<Row>, log: seq<Attempt>, now: Time)
    requires RowsMatch(rows, configs0) && |log| == |rows|
  {
    && SameConfigs(configs, configs0)
    && (forall i :: 0 <= i < |rows| ==>
          configs[rows[i].0].lastSyncedAt == if log[i].outcome.Synced? then Some(now) else configs0[rows[i].0].lastSyncedAt)
    && (forall k :: k in configs0 && k !in RowIds(rows) ==> configs[k].lastSyncedAt == configs0[k].lastSyncedAt)
  }

  lemma StampedSnoc(configs0: map<Id, SyncConfig>, rows: seq<Row>, row: Row, log: seq<Attempt>, a: Attempt,
                    configs: map<Id, SyncConfig>, configs': map<Id, SyncConfig>, now: Time)
    requires RowsMatch(rows + [row], configs0) && RowsMatch(rows, configs0) && |log| == |rows|
    requires Stamped(configs, configs0, rows, log, now) && a.config == row.0 && row.0 in configs
    requires configs' == if a.outcome.Synced? then configs[row.0 := configs[row.0].(lastSyncedAt := Some(now))] else configs
    ensures Stamped(configs', configs0, rows + [row], log + [a], now)
  {
    var rs, ls := rows + [row], log + [a];
    var n := |rows|;
    assert rs[n] == row;
    forall i | 0 <= i < n ensures rs[i] == rows[i] && ls[i] == log[i] && rows[i].0 != row.0 {
      assert rs[i].0 != rs[n].0;
    }
    forall k | k in configs0 && k !in RowIds(rs)
      ensures configs'[k].lastSyncedAt == configs0[k].lastSyncedAt
    {
      assert RowIds(rs)[n] == row.0;
    }
  }

  /** One attempt extends the stamping of the attempts before it. */
  lemma AttemptExtendsStamped(s0: State, s: State, rows: seq<Row>, log: seq<Attempt>, row: Row, feed: Feed, choice: Choice, now: Time)
    requires ConfigsUnique(s0.configs)
    requires RowsMatch(rows + [row], s0.configs) && RowsMatch(rows, s0.configs) && |log| == |rows|
    requires Stamped(s.configs, s0.configs, rows, log, now)
    requires Known(row.1.provider) ==> DispatchValid(s, row.1.tenantId, row.1.provider, choice)
    ensures var step := AttemptRow(s, row, feed, choice, now);
      Stamped(step.0.configs, s0.configs, rows + [row], log + [Attempt(row.0, row.1.tenantId, step.1)], now)
  {
    assert (rows + [row])[|rows|] == row;
    AttemptStampsOwnRow(s0, s, row, feed, choice, now);
    var step := AttemptRow(s, row, feed, choice, now);
    StampedSnoc(s0.configs, rows, row, log, Attempt(row.0, row.1.tenantId, step.1), s.configs, step.0.configs, now);
  }

  /** Over a run of distinct configs, with one config per tenant and
      provider: each attempted config's `lastSyncedAt` is the time of the
      run exactly when its own attempt synced; a config whose attempt failed
      or whose provider is unknown, and every config not attempted, keeps
      its old value. */
  lemma {:induction false} SyncEachStampsSyncedConfigs(s0: State, rows: seq<Row>, feed: Id -> Feed, choices: seq<Choice>, now: Time)
    requires ConfigsUnique(s0.configs) && RowsMatch(rows, s0.configs)
    requires |choices| == |rows| && SweepChoicesValid(s0, rows, feed, choices, now)
    ensures var sw := SyncEach(s0, rows, feed, choices, now);
      && |sw.log| == |rows|
      && Stamped(sw.state.configs, s0.configs, rows, sw.log, now)
    decreases |rows|
  {
    if rows != [] {
      var n := |rows| - 1;
      var p, cp := rows[..n], choices[..n];
      assert RowsMatch(p, s0.configs);
      SyncEachStampsSyncedConfigs(s0, p, feed, cp, now);
      var prev := SyncEach(s0, p, feed, cp, now);
      var row := rows[n];
      assert rows == p + [row];
      AttemptExtendsStamped(s0, prev.state, p, prev.log, row, feed(row.0), choices[n], now);
    }
  }

  /** One pass of the per-config loop on the database. */
  method AttemptOn(db: Database, row: Row, feed: Feed, now: Time)
    returns (outcome: Outcome, ghost choice: Choice)
    modifies db
    ensures Known(row.1.provider) ==> DispatchValid(old(db.Snapshot()), row.1.tenantId, row.1.provider, choice)
    ensures (db.Snapshot(), outcome) == AttemptRow(old(db.Snapshot()), row, feed, choice, now)
  {
    choice := Choice(map[], None, None);
    if !Known(row.1.provider) {
      outcome := Unknown;
      return;
    }
    var failure;
    failure, choice := DispatchOn(db, row.1.tenantId, row.1.provider, feed, now);
    outcome := if failure.Some? then Failed(failure.value) else Synced;
  }

  /** The per-config loop of `runSync` and `main`. */
  method SyncEachConfig(db: Database, rows: seq<Row>, feed: Id -> Feed, now: Time)
    returns (log: seq<Attempt>, ghost choices: seq<Choice>)
    modifies db
    ensures |choices| == |rows| && SweepChoicesValid(old(db.Snapshot()), rows, feed, choices, now)
    ensures Sweep(db.Snapshot(), log) == SyncEach(old(db.Snapshot()), rows, feed, choices, now)
  {
    ghost var s0 := db.Snapshot();
    log := [];
    choices := [];
    var i := 0;
    while i < |rows|
      invariant 0 <= i <= |rows| && |choices| == i
      invariant SweepChoicesValid(s0, rows[..i], feed, choices, now)
      invariant SyncEach(s0, rows[..i], feed, choices, now) == Sweep(db.Snapshot(), log)
      decreases |rows| - i
    {
      var outcome;
      ghost var choice;
      outcome, choice := AttemptOn(db, rows[i], feed(rows[i].0), now);
      SyncEachSnoc(s0, rows[..i], rows[i], feed, choices, choice, now);
      assert rows[..i] + [rows[i]] == rows[..i + 1];
      log := log + [Attempt(rows[i].0, rows[i].1.tenantId, outcome)];
      choices := choices + [choice];
      i := i + 1;
    }
    assert rows[..i] == rows;
  }

  /** `runSync` (and `main` of the sync script): fetch every config, then
      attempt each; `runSync` never lets an error escape, so the loop's log
      is the whole result. */
  method SyncAllConfigs(db: Database, feed: Id -> Feed, now: Time)
    returns (log: seq<Attempt>, ghost rows: seq<Row>, ghost choices: seq<Choice>)
    modifies db
    ensures RowsOf(rows, old(db.configs), None)
    ensures |choices| == |rows| && SweepChoicesValid(old(db.Snapshot()), rows, feed, choices, now)
    ensures Sweep(db.Snapshot(), log) == SyncEach(old(db.Snapshot()), rows, feed, choices, now)
  {
    var configs := db.configs;
    var ids := FindConfigs(configs, None);
    var fetched := seq(|ids|, i requires 0 <= i < |ids| => (ids[i], configs[ids[i]]));
    assert RowIds(fetched) == ids;
    rows := fetched;
    log, choices := SyncEachConfig(db, fetched, feed, now);
  }

  // ---------------------------------------------------------------------
  // One tenant, first problem answers: `POST /api/admin/sync`
  // ---------------------------------------------------------------------

  /** Why the route's loop stopped early. */
  datatype Halt = UnknownProvider(provider: string) | Threw(error: Error)

  datatype RouteRun = RouteRun(state: State, halt: Option<Halt>)

  /** One pass of the route's loop: an unknown provider returns at once, an
      error thrown by a sync leaves the loop. */
  function RouteStep(s: State, tenant: Id, row: Row, feed: Feed, choice: Choice, now: Time): (r: RouteRun)
    ensures r.halt == Some(UnknownProvider(row.1.provider)) <==> !Known(row.1.provider)
    ensures !Known(row.1.provider) ==> r.state == s
  {
    if !Known(row.1.provider) then RouteRun(s, Some(UnknownProvider(row.1.provider)))
    else
      var d := Dispatch(s, tenant, row.1.provider, feed, choice, now);
      RouteRun(d.state, if d.failure.Some? then Some(Threw(d.failure.value)) else None)
  }

  /** A loop over rows that runs `step` on each and stops at the first halt,
      as a left fold. */
  function RunUntilHalt(s: State, rows: seq<Row>, choices: seq<Choice>, step: (State, Row, Choice) -> RouteRun): RouteRun
    requires |choices| == |rows|
    decreases |rows|
  {
    if rows == [] then RouteRun(s, None)
    else
      var n := |rows| - 1;
      var r := RunUntilHalt(s, rows[..n], choices[..n], step);
      if r.halt.Some? then r else step(r.state, rows[n], choices[n])
  }

  function RouteStepper(tenant: Id, feed: Id -> Feed, now: Time): (State, Row, Choice) -> RouteRun {
    (s: State, row: Row, c: Choice) => RouteStep(s, tenant, row, feed(row.0), c, now)
  }

  /** The route's loop. */
  function SyncInOrder(s: State, tenant: Id, rows: seq<Row>, feed: Id -> Feed, choices: seq<Choice>, now: Time): RouteRun
    requires |choices| == |rows|
  {
    RunUntilHalt(s, rows, choices, RouteStepper(tenant, feed, now))
  }

  /** The route's success payload. */
  datatype SyncDone = SyncDone(message: string, timestamp: Time)

  /** The route: tenant guard, the tenant's configs, the loop, the answer. */
  function OnDemand(s: State, tenant: Id, rows: seq<Row>, feed: Id -> Feed, choices: seq<Choice>, now: Time): (State, Response<SyncDone>)
    requires |choices| == |rows|
  {
    if ResolveTenant(s, tenant).None? then (s, InvalidTenant())
    else if rows == [] then (s, ErrorWith(404, "NO_SYNC_CONFIG", "No sync configuration found for this tenant"))
    else
      var r := SyncInOrder(s, tenant, rows, feed, choices, now);
      match r.halt
      case None => (r.state, Ok(SyncDone("Synchronization completed successfully", now)))
      case Some(UnknownProvider(p)) => (r.state, ErrorWith(400, "UNKNOWN_PROVIDER", "Unknown provider: " + p))
      case Some(Threw(e)) => (r.state, Err(500, None, Some(Message(e))))
  }

  /** The answers of every sync the loop reached are valid. */
  ghost predicate RouteChoicesValid(s0: State, tenant: Id, rows: seq<Row>, feed: Id -> Feed, choices: seq<Choice>, now: Time)
    requires |choices| == |rows|
    decreases |rows|
  {
    rows == [] ||
      var n := |rows| - 1;
      var r := SyncInOrder(s0, tenant, rows[..n], feed, choices[..n], now);
      && RouteChoicesValid(s0, tenant, rows[..n], feed, choices[..n], now)
      && (r.halt.None? && Known(rows[n].1.provider) ==> DispatchValid(r.state, tenant, rows[n].1.provider, choices[n]))
  }

  /** One more row: the fold's last step, and the validity of its answers. */
  lemma SyncInOrderSnoc(s0: State, tenant: Id, rows: seq<Row>, row: Row, feed: Id -> Feed, choices: seq<Choice>, choice: Choice, now: Time)
    requires |choices| == |rows|
    ensures var r := SyncInOrder(s0, tenant, rows, feed, choices, now);
      && SyncInOrder(s0, tenant, rows + [row], feed, choices + [choice], now) ==
           (if r.halt.Some? then r else RouteStep(r.state, tenant, row, feed(row.0), choice, now))
      && (RouteChoicesValid(s0, tenant, rows + [row], feed, choices + [choice], now) <==>
            && RouteChoicesValid(s0, tenant, rows, feed, choices, now)
            && (r.halt.None? && Known(row.1.provider) ==> DispatchValid(r.state, tenant, row.1.provider, choice)))
  {
    var rs, cs := rows + [row], choices + [choice];
    assert rs[..|rows|] == rows && cs[..|rows|] == choices;
  }

  /** Once the loop has halted, no later row runs. */
  lemma {:induction false} HaltIsFinal(s: State, rows: seq<Row>, choices: seq<Choice>, step: (State, Row, Choice) -> RouteRun, i: nat)
    requires i <= |rows| == |choices|
    requires RunUntilHalt(s, rows[..i], choices[..i], step).halt.Some?
    ensures RunUntilHalt(s, rows, choices, step) == RunUntilHalt(s, rows[..i], choices[..i], step)
    decreases |rows|
  {
    if i < |rows| {
      var n := |rows| - 1;
      assert rows[..n][..i] == rows[..i] && choices[..n][..i] == choices[..i];
      HaltIsFinal(s, rows[..n], choices[..n], step, i);
    } else {
      assert rows[..i] == rows && choices[..i] == choices;
    }
  }

  /** After a halt the answers to the rows after it are never asked for,
      so any will do. */
  lemma {:induction false} HaltedRun(s0: State, tenant: Id, rows: seq<Row>, feed: Id -> Feed, choices: seq<Choice>, extra: seq<Choice>, now: Time)
    requires |choices| <= |rows| && |choices| + |extra| == |rows|
    requires var k := |choices|;
      SyncInOrder(s0, tenant, rows[..k], feed, choices, now).halt.Some? && RouteChoicesValid(s0, tenant, rows[..k], feed, choices, now)
    ensures SyncInOrder(s0, tenant, rows, feed, choices + extra, now) == SyncInOrder(s0, tenant, rows[..|choices|], feed, choices, now)
    ensures RouteChoicesValid(s0, tenant, rows, feed, choices + extra, now)
    decreases |rows|
  {
    var k, cs := |choices|, choices + extra;
    if k < |rows| {
      var n := |rows| - 1;
      assert rows[..n][..k] == rows[..k] && cs[..n] == choices + extra[..n - k];
      HaltedRun(s0, tenant, rows[..n], feed, choices, extra[..n - k], now);
      assert SyncInOrder(s0, tenant, rows[..n], feed, cs[..n], now).halt.Some?;
    } else {
      assert rows[..k] == rows && cs == choices;
    }
  }

  /** The route answers before reading any config when the tenant does not
      exist, and answers 404 NO_SYNC_CONFIG, syncing nothing, exactly when
      the tenant exists and owns no config. */
  lemma OnDemandGuards(s: State, tenant: Id, rows: seq<Row>, feed: Id -> Feed, choices: seq<Choice>, now: Time)
    requires |choices| == |rows|
    requires tenant in s.tenants ==> RowsOf(rows, s.configs, Some(tenant))
    ensures tenant !in s.tenants ==> OnDemand(s, tenant, rows, feed, choices, now) == (s, InvalidTenant())
    ensures OnDemand(s, tenant, rows, feed, choices, now).1 == ErrorWith(404, "NO_SYNC_CONFIG", "No sync configuration found for this tenant")
        <==> tenant in s.tenants && forall c :: c in s.configs ==> s.configs[c].tenantId != tenant
    ensures OnDemand(s, tenant, rows, feed, choices, now).1.Status() == 404 ==> OnDemand(s, tenant, rows, feed, choices, now).0 == s
  {
    if tenant in s.tenants && rows != [] {
      assert RowIds(rows)[0] == rows[0].0;
      assert s.configs[rows[0].0].tenantId == tenant;
    }
  }

  /** The loop stopped at row k: every row before it ran without a halt,
      and row k's step, which halted, is the loop's result. */
  ghost predicate HaltedAt(s: State, rows: seq<Row>, choices: seq<Choice>, step: (State, Row, Choice) -> RouteRun, k: int)
    requires |choices| == |rows|
  {
    && 0 <= k < |rows|
    && var before := RunUntilHalt(s, rows[..k], choices[..k], step);
       && before.halt.None?
       && step(before.state, rows[k], choices[k]).halt.Some?
       && RunUntilHalt(s, rows, choices, step) == step(before.state, rows[k], choices[k])
  }

  /** A halted loop halted at one row. */
  lemma {:induction false} HaltStopsAtOneRow(s: State, rows: seq<Row>, choices: seq<Choice>, step: (State, Row, Choice) -> RouteRun)
    requires |choices| == |rows|
    requires RunUntilHalt(s, rows, choices, step).halt.Some?
    ensures exists k :: HaltedAt(s, rows, choices, step, k)
    decreases |rows|
  {
    var n := |rows| - 1;
    var p, cp := rows[..n], choices[..n];
    if RunUntilHalt(s, p, cp, step).halt.Some? {
      HaltStopsAtOneRow(s, p, cp, step);
      var k :| HaltedAt(s, p, cp, step, k);
      assert p[..k] == rows[..k] && cp[..k] == choices[..k] && p[k] == rows[k] && cp[k] == choices[k];
      assert HaltedAt(s, rows, choices, step, k);
    } else {
      assert HaltedAt(s, rows, choices, step, n);
    }
  }

  /** The answer to a loop halted at row k: 400 UNKNOWN_PROVIDER naming row
      k's provider, or 500 with the message of the error row k's sync threw;
      the writes of the syncs before it, and of row k's up to its error, stay. */
  lemma OnDemandHaltAnswers(s: State, tenant: Id, rows: seq<Row>, feed: Id -> Feed, choices: seq<Choice>, now: Time, k: int)
    requires |choices| == |rows| && tenant in s.tenants
    requires HaltedAt(s, rows, choices, RouteStepper(tenant, feed, now), k)
    ensures var before := SyncInOrder(s, tenant, rows[..k], feed, choices[..k], now);
      var (s', resp) := OnDemand(s, tenant, rows, feed, choices, now);
      if Known(rows[k].1.provider) then
        var d := Dispatch(before.state, tenant, rows[k].1.provider, feed(rows[k].0), choices[k], now);
        d.failure.Some? && s' == d.state && resp == Err(500, None, Some(Message(d.failure.value)))
      else
        s' == before.state && resp == ErrorWith(400, "UNKNOWN_PROVIDER", "Unknown provider: " + rows[k].1.provider)
  {
  }

  /** A loop that ended without a halt ran every row without one. */
  lemma NoHaltRanAll(s: State, rows: seq<Row>, choices: seq<Choice>, step: (State, Row, Choice) -> RouteRun)
    requires |choices| == |rows| && RunUntilHalt(s, rows, choices, step).halt.None?
    ensures forall i :: 0 <= i < |rows| ==>
      && RunUntilHalt(s, rows[..i], choices[..i], step).halt.None?
      && step(RunUntilHalt(s, rows[..i], choices[..i], step).state, rows[i], choices[i]).halt.None?
  {
    forall i | 0 <= i < |rows|
      ensures RunUntilHalt(s, rows[..i], choices[..i], step).halt.None?
      ensures step(RunUntilHalt(s, rows[..i], choices[..i], step).state, rows[i], choices[i]).halt.None?
    {
      if RunUntilHalt(s, rows[..i + 1], choices[..i + 1], step).halt.Some? {
        HaltIsFinal(s, rows, choices, step, i + 1);
        assert false;
      }
      assert rows[..i + 1][..i] == rows[..i] && choices[..i + 1][..i] == choices[..i];
      assert rows[..i + 1][i] == rows[i] && choices[..i + 1][i] == choices[i];
    }
  }

  /** The route answers 200 only when every config of the tenant had a known
      provider and synced without error, each on the state the configs
      before it left. */
  lemma OnDemandOkOnlyIfAllSynced(s: State, tenant: Id, rows: seq<Row>, feed: Id -> Feed, choices: seq<Choice>, now: Time)
    requires |choices| == |rows|
    requires OnDemand(s, tenant, rows, feed, choices, now).1.Ok?
    ensures tenant in s.tenants && rows != []
    ensures forall i :: 0 <= i < |rows| ==>
      && Known(rows[i].1.provider)
      && Dispatch(SyncInOrder(s, tenant, rows[..i], feed, choices[..i], now).state, tenant, rows[i].1.provider, feed(rows[i].0), choices[i], now).failure.None?
  {
    var step := RouteStepper(tenant, feed, now);
    NoHaltRanAll(s, rows, choices, step);
    forall i | 0 <= i < |rows|
      ensures Known(rows[i].1.provider)
      ensures Dispatch(SyncInOrder(s, tenant, rows[..i], feed, choices[..i], now).state, tenant, rows[i].1.provider, feed(rows[i].0), choices[i], now).failure.None?
    {
      var before := RunUntilHalt(s, rows[..i], choices[..i], step);
      assert step(before.state, rows[i], choices[i]) == RouteStep(before.state, tenant, rows[i], feed(rows[i].0), choices[i], now);
    }
  }

  /** One pass of the route's loop on the database. */
  method RouteStepOn(db: Database, tenant: Id, row: Row, feed: Feed, now: Time)
    returns (halt: Option<Halt>, ghost choice: Choice)
    modifies db
    ensures Known(row.1.provider) ==> DispatchValid(old(db.Snapshot()), tenant, row.1.provider, choice)
    ensures RouteRun(db.Snapshot(), halt) == RouteStep(old(db.Snapshot()), tenant, row, feed, choice, now)
  {
    choice := Choice(map[], None, None);
    if !Known(row.1.provider) {
      halt := Some(UnknownProvider(row.1.provider));
      return;
    }
    var failure;
    failure, choice := DispatchOn(db, tenant, row.1.provider, feed, now);
    halt := if failure.Some? then Some(Threw(failure.value)) else None;
  }

  /** The route's loop over the tenant's configs, on the database. */
  method SyncTenantConfigs(db: Database, tenant: Id, rows: seq<Row>, feed: Id -> Feed, now: Time)
    returns (halt: Option<Halt>, ghost choices: seq<Choice>)
    modifies db
    ensures |choices| == |rows| && RouteChoicesValid(old(db.Snapshot()), tenant, rows, feed, choices, now)
    ensures RouteRun(db.Snapshot(), halt) == SyncInOrder(old(db.Snapshot()), tenant, rows, feed, choices, now)
  {
    ghost var s0 := db.Snapshot();
    choices := [];
    halt := None;
    var i := 0;
    while i < |rows|
      invariant 0 <= i <= |rows| && |choices| == i && halt.None?
      invariant SyncInOrder(s0, tenant, rows[..i], feed, choices, now) == RouteRun(db.Snapshot(), None)
      invariant RouteChoicesValid(s0, tenant, rows[..i], feed, choices, now)
      decreases |rows| - i
    {
      ghost var choice;
      halt, choice := RouteStepOn(db, tenant, rows[i], feed(rows[i].0), now);
      SyncInOrderSnoc(s0, tenant, rows[..i], rows[i], feed, choices, choice, now);
      assert rows[..i] + [rows[i]] == rows[..i + 1];
      choices := choices + [choice];
      assert SyncInOrder(s0, tenant, rows[..i + 1], feed, choices, now) == RouteRun(db.Snapshot(), halt);
      if halt.Some? {
        ghost var rest := seq(|rows| - i - 1, _ => Choice(map[], None, None));
        HaltedRun(s0, tenant, rows, feed, choices, rest, now);
        choices := choices + rest;
        return;
      }
      i := i + 1;
    }
    assert rows[..i] == rows;
  }

  /** `POST /api/admin/sync` for the tenant the request names. */
  method OnDemandSync(db: Database, tenant: Id, feed: Id -> Feed, now: Time)
    returns (resp: Response<SyncDone>, ghost rows: seq<Row>, ghost choices: seq<Choice>)
    modifies db
    ensures tenant in old(db.tenants) ==> RowsOf(rows, old(db.configs), Some(tenant))
    ensures |choices| == |rows| && RouteChoicesValid(old(db.Snapshot()), tenant, rows, feed, choices, now)
    ensures (db.Snapshot(), resp) == OnDemand(old(db.Snapshot()), tenant, rows, feed, choices, now)
  {
    rows, choices := [], [];
    if ResolveTenant(db.Snapshot(), tenant).None? {
      resp := InvalidTenant();
      return;
    }
    var configs := db.configs;
    var ids := FindConfigs(configs, Some(tenant));
    var fetched := seq(|ids|, i requires 0 <= i < |ids| => (ids[i], configs[ids[i]]));
    assert RowIds(fetched) == ids;
    rows := fetched;
    if |fetched| == 0 {
      resp := ErrorWith(404, "NO_SYNC_CONFIG", "No sync configuration found for this tenant");
      return;
    }
    var halt;
    halt, choices := SyncTenantConfigs(db, tenant, fetched, feed, now);
    match halt {
      case None => resp := Ok(SyncDone("Synchronization completed successfully", now));
      case Some(UnknownProvider(p)) => resp := ErrorWith(400, "UNKNOWN_PROVIDER", "Unknown provider: " + p);
      case Some(Threw(e)) => resp := Err(500, None, Some(Message(e)));
    }
  }
}
