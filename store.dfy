/** The relational store behind the application: tenants, teams, members,
    badges, member-badge assignments and directory-sync configurations, as
    one in-memory database object whose tables are maps from row id to row.
    The write operations have the ORM's semantics: a field passed as
    `undefined` is left as it is, an insert that breaks the unique e-mail
    constraint throws, an update of a missing row throws. */
module Store {
  import opened Js
  import opened Ids
  import opened Validation

  /** A timestamp, in milliseconds. */
  type Time = int

  /** The opaque per-provider configuration object stored with a sync config:
      any JSON object. */
  type Blob = map<string, Value>

  datatype Tenant = Tenant(name: string, domain: string, customerId: string, apiKey: string)

  datatype Team = Team(tenantId: Id, name: string, description: string)

  /** A member. `tenantId` is absent for rows inserted without one (the REST
      member route does not pass it); `externalId` is present only for
      members imported from a directory. */
  datatype Member = Member(
    tenantId: Option<Id>,
    externalId: Option<string>,
    name: string,
    email: string,
    role: string,
    teamId: Id,
    isOnCall: bool,
    phone: Option<string>,
    skills: seq<string>,
    joinedAt: Time,
    updatedAt: Time)

  datatype SyncConfig = SyncConfig(tenantId: Id, provider: string, config: Blob, lastSyncedAt: Option<Time>)

  datatype Badge = Badge(name: string, description: string, color: string, createdAt: Time)

  /** The errors that end a sync run or a request: exceptions thrown by the
      directory clients, by the ORM, or by the source's own code. */
  datatype Error =
    | BindFailed(reason: string)      // the LDAP bind callback reported an error
    | SearchFailed(reason: string)    // the LDAP search failed or its stream errored
    | ListFailed(reason: string)      // a directory listing request was rejected
    | DirectoryExhausted              // the directory stopped answering while a page token remained
    | NoDefaultTeam                   // the tenant has no team
    | UniqueEmail(email: string)      // a write would give two members the same e-mail
    | MissingName                     // a member insert without the required name
    | RecordNotFound(id: Id)          // an update of a row that does not exist
    | NullConfig                      // `findFirst(...)!.id` when no config was found
    | UndefinedUserName               // `user.name.fullName` when `user.name` is undefined

  /** A message determined by the error, standing for the `error.message`
      the on-demand sync route reports; the database client's texts are
      abbreviated to their last line. */
  function Message(e: Error): string {
    match e
    case BindFailed(reason) => "LDAP bind error: " + reason
    case SearchFailed(reason) => reason
    case ListFailed(reason) => reason
    case DirectoryExhausted => "directory returned no further page"
    case NoDefaultTeam => "No default team found for tenant"
    case UniqueEmail(_) => "Unique constraint failed on the fields: (`email`)"
    case MissingName => "Argument `name` is missing."
    case RecordNotFound(_) => "Record to update not found."
    case NullConfig => "Cannot read properties of null (reading 'id')"
    case UndefinedUserName => "Cannot read properties of undefined (reading 'fullName')"
  }

  /** The whole database as a value. `serial` is the id generator's counter. */
  datatype State = State(
    tenants: map<Id, Tenant>,
    teams: map<Id, Team>,
    members: map<Id, Member>,
    badges: map<Id, Badge>,
    memberBadges: set<(Id, Id)>,
    configs: map<Id, SyncConfig>,
    serial: nat)

  // ---------------------------------------------------------------------
  // Constraints the database itself enforces
  // ---------------------------------------------------------------------

  /** No generated id from the counter on is in use yet. */
  ghost predicate FreshIds(s: State) {
    forall n: nat :: s.serial <= n ==>
      && GenId(n) !in s.tenants && GenId(n) !in s.teams && GenId(n) !in s.members
      && GenId(n) !in s.badges && GenId(n) !in s.configs
  }

  /** Every reference names an existing row. */
  ghost predicate ForeignKeys(s: State) {
    && (forall k :: k in s.teams ==> s.teams[k].tenantId in s.tenants)
    && (forall k :: k in s.members ==> s.members[k].teamId in s.teams)
    && (forall k :: k in s.members && s.members[k].tenantId.Some? ==> s.members[k].tenantId.value in s.tenants)
    && (forall k :: k in s.configs ==> s.configs[k].tenantId in s.tenants)
    && (forall p :: p in s.memberBadges ==> p.0 in s.members && p.1 in s.badges)
  }

  /** `Member.email` is unique. */
  ghost predicate EmailsUnique(members: map<Id, Member>) {
    forall a, b :: a in members && b in members && a != b ==> members[a].email != members[b].email
  }

  ghost predicate Consistent(s: State) {
    FreshIds(s) && ForeignKeys(s) && EmailsUnique(s.members)
  }

  // ---------------------------------------------------------------------
  // Uniqueness that only the creating routes enforce
  // ---------------------------------------------------------------------

  /** At most one sync config per (tenant, provider). */
  ghost predicate ConfigsUnique(configs: map<Id, SyncConfig>) {
    forall a, b :: a in configs && b in configs && a != b ==>
      configs[a].tenantId != configs[b].tenantId || configs[a].provider != configs[b].provider
  }

  /** No two tenants share a domain or a customer id. */
  ghost predicate TenantsUnique(tenants: map<Id, Tenant>) {
    forall a, b :: a in tenants && b in tenants && a != b ==>
      tenants[a].domain != tenants[b].domain && tenants[a].customerId != tenants[b].customerId
  }

  /** No two badges share a name. */
  ghost predicate BadgeNamesUnique(badges: map<Id, Badge>) {
    forall a, b :: a in badges && b in badges && a != b ==> badges[a].name != badges[b].name
  }

  // ---------------------------------------------------------------------
  // Reads whose answer the database is free to choose
  // ---------------------------------------------------------------------

  /** What `team.findFirst({ where: { tenantId } })` may return: some team of
      the tenant, or nothing exactly when the tenant has none. */
  ghost predicate TeamChoice(team: Option<Id>, teams: map<Id, Team>, tenant: Id) {
    match team
    case Some(t) => t in teams && teams[t].tenantId == tenant
    case None => forall t :: t in teams ==> teams[t].tenantId != tenant
  }

  /** What `syncConfig.findFirst({ where: { tenantId, provider } })` may return. */
  ghost predicate ConfigChoice(config: Option<Id>, configs: map<Id, SyncConfig>, tenant: Id, provider: string) {
    match config
    case Some(c) => c in configs && configs[c].tenantId == tenant && configs[c].provider == provider
    case None => forall c :: c in configs ==> configs[c].tenantId != tenant || configs[c].provider != provider
  }

  // ---------------------------------------------------------------------
  // Writes, as functions on the state
  // ---------------------------------------------------------------------

  /** Whether a member other than `except` already has this e-mail. */
  predicate EmailTaken(members: map<Id, Member>, email: string, except: Option<Id>) {
    exists k :: k in members && Some(k) != except && members[k].email == email
  }

  /** The member after an update of name, e-mail and phone: an undefined
      name or phone keeps the stored value. */
  function Refreshed(m: Member, name: Option<string>, email: string, phone: Option<string>, now: Time): Member {
    m.(name := name.GetOr(m.name), email := email,
       phone := if phone.Some? then phone else m.phone, updatedAt := now)
  }

  /** `member.update({ where: { id }, data: { name, email, phone, updatedAt } })`. */
  function UpdateMember(s: State, id: Id, name: Option<string>, email: string, phone: Option<string>, now: Time): Result<State, Error> {
    if id !in s.members then Failure(RecordNotFound(id))
    else if EmailTaken(s.members, email, Some(id)) then Failure(UniqueEmail(email))
    else Success(s.(members := s.members[id := Refreshed(s.members[id], name, email, phone, now)]))
  }

  /** `member.create({ data })`: the row gets the next generated id. */
  function CreateMember(s: State, m: Member): Result<State, Error> {
    if EmailTaken(s.members, m.email, None) then Failure(UniqueEmail(m.email))
    else Success(s.(members := s.members[GenId(s.serial) := m], serial := s.serial + 1))
  }

  /** `syncConfig.update({ where: { id }, data: { lastSyncedAt } })`. */
  function TouchConfig(s: State, id: Id, now: Time): Result<State, Error> {
    if id !in s.configs then Failure(RecordNotFound(id))
    else Success(s.(configs := s.configs[id := s.configs[id].(lastSyncedAt := Some(now))]))
  }

  /** `syncConfig.create({ data })`. */
  function CreateConfig(s: State, c: SyncConfig): State {
    s.(configs := s.configs[GenId(s.serial) := c], serial := s.serial + 1)
  }

  /** `tenant.create({ data })`. */
  function CreateTenant(s: State, t: Tenant): State {
    s.(tenants := s.tenants[GenId(s.serial) := t], serial := s.serial + 1)
  }

  /** `team.create({ data })`. */
  function CreateTeam(s: State, t: Team): State {
    s.(teams := s.teams[GenId(s.serial) := t], serial := s.serial + 1)
  }

  /** `badge.create({ data })`. */
  function CreateBadge(s: State, b: Badge): State {
    s.(badges := s.badges[GenId(s.serial) := b], serial := s.serial + 1)
  }

  /** `memberBadge.createMany({ data, skipDuplicates: true })`: pairs already
      present are skipped, so the table is a set. */
  function AddMemberBadges(s: State, pairs: set<(Id, Id)>): State {
    s.(memberBadges := s.memberBadges + pairs)
  }

  /** The state after a write: the new state if it succeeded, the old one if it threw. */
  function After(s: State, w: Result<State, Error>): State {
    if w.Success? then w.value else s
  }

  function ErrorOf(w: Result<State, Error>): Option<Error> {
    if w.Failure? then Some(w.error) else None
  }

  lemma GenIdFresh(s: State)
    requires FreshIds(s)
    ensures FreshIds(s.(serial := s.serial + 1))
    ensures GenId(s.serial) !in s.members && GenId(s.serial) !in s.configs
    ensures GenId(s.serial) !in s.tenants && GenId(s.serial) !in s.teams && GenId(s.serial) !in s.badges
  {
  }

  lemma CreateConfigKeepsConsistent(s: State, c: SyncConfig)
    requires Consistent(s) && c.tenantId in s.tenants
    ensures Consistent(CreateConfig(s, c))
  {
    GenIdFresh(s);
    LaterIdsDiffer(s.serial);
  }

  lemma CreateTenantKeepsConsistent(s: State, t: Tenant)
    requires Consistent(s)
    ensures Consistent(CreateTenant(s, t))
  {
    GenIdFresh(s);
    LaterIdsDiffer(s.serial);
  }

  lemma CreateTeamKeepsConsistent(s: State, t: Team)
    requires Consistent(s) && t.tenantId in s.tenants
    ensures Consistent(CreateTeam(s, t))
  {
    GenIdFresh(s);
    LaterIdsDiffer(s.serial);
  }

  lemma CreateBadgeKeepsConsistent(s: State, b: Badge)
    requires Consistent(s)
    ensures Consistent(CreateBadge(s, b))
  {
    GenIdFresh(s);
    LaterIdsDiffer(s.serial);
  }

  lemma AddMemberBadgesKeepsConsistent(s: State, pairs: set<(Id, Id)>)
    requires Consistent(s)
    requires forall p :: p in pairs ==> p.0 in s.members && p.1 in s.badges
    ensures Consistent(AddMemberBadges(s, pairs))
  {
  }

  // ---------------------------------------------------------------------
  // The database object
  // ---------------------------------------------------------------------

  class Database {
    var tenants: map<Id, Tenant>
    var teams: map<Id, Team>
    var members: map<Id, Member>
    var badges: map<Id, Badge>
    var memberBadges: set<(Id, Id)>
    var configs: map<Id, SyncConfig>
    var serial: nat

    function Snapshot(): State
      reads this
    {
      State(tenants, teams, members, badges, memberBadges, configs, serial)
    }

    ghost predicate Valid()
      reads this
    {
      Consistent(Snapshot())
    }

    constructor ()
      ensures Snapshot() == State(map[], map[], map[], map[], {}, map[], 0)
      ensures Valid()
    {
      tenants, teams, members, badges := map[], map[], map[], map[];
      memberBadges, configs, serial := {}, map[], 0;
    }

    /** Installs the outcome of a write. */
    method Commit(s: State)
      modifies this
      ensures Snapshot() == s
    {
      tenants, teams, members, badges := s.tenants, s.teams, s.members, s.badges;
      memberBadges, configs, serial := s.memberBadges, s.configs, s.serial;
    }

    /** Takes the next id from the generator. */
    method NewId() returns (id: Id)
      requires Valid()
      modifies this
      ensures id == GenId(old(serial))
      ensures Snapshot() == old(Snapshot()).(serial := old(serial) + 1)
      ensures id !in tenants && id !in teams && id !in members && id !in badges && id !in configs
      ensures Valid()
    {
      GenIdFresh(Snapshot());
      id := GenId(serial);
      serial := serial + 1;
    }

    method MemberUpdate(id: Id, name: Option<string>, email: string, phone: Option<string>, now: Time)
      returns (failure: Option<Error>)
      modifies this
      ensures Snapshot() == After(old(Snapshot()), UpdateMember(old(Snapshot()), id, name, email, phone, now))
      ensures failure == ErrorOf(UpdateMember(old(Snapshot()), id, name, email, phone, now))
    {
      var w := UpdateMember(Snapshot(), id, name, email, phone, now);
      Commit(After(Snapshot(), w));
      failure := ErrorOf(w);
    }

    method MemberCreate(m: Member) returns (failure: Option<Error>)
      modifies this
      ensures Snapshot() == After(old(Snapshot()), CreateMember(old(Snapshot()), m))
      ensures failure == ErrorOf(CreateMember(old(Snapshot()), m))
    {
      var w := CreateMember(Snapshot(), m);
      Commit(After(Snapshot(), w));
      failure := ErrorOf(w);
    }

    method ConfigTouch(id: Id, now: Time) returns (failure: Option<Error>)
      modifies this
      ensures Snapshot() == After(old(Snapshot()), TouchConfig(old(Snapshot()), id, now))
      ensures failure == ErrorOf(TouchConfig(old(Snapshot()), id, now))
    {
      var w := TouchConfig(Snapshot(), id, now);
      Commit(After(Snapshot(), w));
      failure := ErrorOf(w);
    }

    method ConfigCreate(c: SyncConfig) returns (id: Id)
      modifies this
      ensures id == GenId(old(serial))
      ensures Snapshot() == CreateConfig(old(Snapshot()), c)
    {
      id := GenId(serial);
      Commit(CreateConfig(Snapshot(), c));
    }

    method TenantCreate(t: Tenant) returns (id: Id)
      modifies this
      ensures id == GenId(old(serial))
      ensures Snapshot() == CreateTenant(old(Snapshot()), t)
    {
      id := GenId(serial);
      Commit(CreateTenant(Snapshot(), t));
    }

    method TeamCreate(t: Team) returns (id: Id)
      modifies this
      ensures id == GenId(old(serial))
      ensures Snapshot() == CreateTeam(old(Snapshot()), t)
    {
      id := GenId(serial);
      Commit(CreateTeam(Snapshot(), t));
    }

    method BadgeCreate(b: Badge) returns (id: Id)
      modifies this
      ensures id == GenId(old(serial))
      ensures Snapshot() == CreateBadge(old(Snapshot()), b)
    {
      id := GenId(serial);
      Commit(CreateBadge(Snapshot(), b));
    }

    method MemberBadgesCreate(pairs: set<(Id, Id)>)
      modifies this
      ensures Snapshot() == AddMemberBadges(old(Snapshot()), pairs)
    {
      Commit(AddMemberBadges(Snapshot(), pairs));
    }

    /** `team.findFirst({ where: { tenantId } })`. */
    method FirstTeamOf(tenant: Id) returns (team: Option<Id>)
      ensures TeamChoice(team, teams, tenant)
    {
      if t :| t in teams && teams[t].tenantId == tenant {
        team := Some(t);
      } else {
        team := None;
      }
    }

    /** `tenant.findFirst({ where: { OR: [{ domain }, { customerId }] } })`. */
    method FirstTenantMatching(domain: string, customerId: string) returns (tenant: Option<Id>)
      ensures tenant.Some? ==>
        tenant.value in tenants && (tenants[tenant.value].domain == domain || tenants[tenant.value].customerId == customerId)
      ensures tenant.None? ==> forall t :: t in tenants ==> tenants[t].domain != domain && tenants[t].customerId != customerId
    {
      if t :| t in tenants && (tenants[t].domain == domain || tenants[t].customerId == customerId) {
        tenant := Some(t);
      } else {
        tenant := None;
      }
    }

    /** `syncConfig.findFirst({ where: { tenantId, provider } })`. */
    method FirstConfigFor(tenant: Id, provider: string) returns (config: Option<Id>)
      ensures ConfigChoice(config, configs, tenant, provider)
    {
      if c :| c in configs && configs[c].tenantId == tenant && configs[c].provider == provider {
        config := Some(c);
      } else {
        config := None;
      }
    }
  }

  /** `ids` lists each element of `keys` exactly once, in some order. */
  predicate Enumerates(ids: seq<Id>, keys: set<Id>) {
    && (forall i, j :: 0 <= i < j < |ids| ==> ids[i] != ids[j])
    && (forall i :: 0 <= i < |ids| ==> ids[i] in keys)
    && (forall k :: k in keys ==> k in ids)
  }

  /** A list of distinct ids of a set has the set's size. */
  lemma {:induction false} EnumeratesSize(ids: seq<Id>, keys: set<Id>)
    requires Enumerates(ids, keys)
    ensures |ids| == |keys|
    decreases |ids|
  {
    if ids != [] {
      var last := ids[|ids| - 1];
      var rest := ids[..|ids| - 1];
      forall k | k in keys - {last} ensures k in rest {
        var i :| 0 <= i < |ids| && ids[i] == k;
        assert rest[i] == k;
      }
      EnumeratesSize(rest, keys - {last});
    } else {
      assert forall k :: k in keys ==> k in ids;
    }
  }

  /** The rows a `findMany` returns, in an order of the database's choosing. */
  method ListKeys(keys: set<Id>) returns (ids: seq<Id>)
    ensures Enumerates(ids, keys)
  {
    ids := [];
    var todo := keys;
    while todo != {}
      invariant todo <= keys
      invariant forall i, j :: 0 <= i < j < |ids| ==> ids[i] != ids[j]
      invariant forall i :: 0 <= i < |ids| ==> ids[i] in keys && ids[i] !in todo
      invariant forall k :: k in keys && k !in todo ==> k in ids
      decreases todo
    {
      var k :| k in todo;
      ids := ids + [k];
      todo := todo - {k};
    }
  }

  /** The ids of the configs `findMany` returns, in the database's order:
      each config whose tenant matches (every config when `tenant` is
      absent) exactly once. */
  predicate ListsConfigs(ids: seq<Id>, configs: map<Id, SyncConfig>, tenant: Option<Id>) {
    && (forall i, j :: 0 <= i < j < |ids| ==> ids[i] != ids[j])
    && (forall i :: 0 <= i < |ids| ==> ids[i] in configs && (tenant.Some? ==> configs[ids[i]].tenantId == tenant.value))
    && (forall c :: c in configs && (tenant.Some? ==> configs[c].tenantId == tenant.value) ==> c in ids)
  }

  /** `syncConfig.findMany({ where })`: the matching configs, in an order of
      the database's choosing. */
  method FindConfigs(configs: map<Id, SyncConfig>, tenant: Option<Id>) returns (ids: seq<Id>)
    ensures ListsConfigs(ids, configs, tenant)
  {
    ids := [];
    var todo := configs.Keys;
    while todo != {}
      invariant todo <= configs.Keys
      invariant forall i, j :: 0 <= i < j < |ids| ==> ids[i] != ids[j]
      invariant forall i :: 0 <= i < |ids| ==> ids[i] in configs && ids[i] !in todo
      invariant forall i :: 0 <= i < |ids| ==> tenant.Some? ==> configs[ids[i]].tenantId == tenant.value
      invariant forall c :: c in configs && c !in todo && (tenant.Some? ==> configs[c].tenantId == tenant.value) ==> c in ids
      decreases todo
    {
      var c :| c in todo;
      if tenant.None? || configs[c].tenantId == tenant.value {
        ids := ids + [c];
      }
      todo := todo - {c};
    }
  }
}
