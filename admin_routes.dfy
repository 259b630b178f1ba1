/** The admin routes that create what a directory sync runs on: the
    sync-config route (`POST` creates a tenant's configuration for a
    provider, `GET` lists the tenant's configurations) and the tenant route
    (`POST` creates a tenant with its API key and its default team). Each
    route is a function from the database state to the new state and the
    response, and a method on the database that performs it. */
module AdminRoutes {
  import opened Js
  import opened Ids
  import opened Hex
  import opened Store
  import opened Validation
  import opened Http

  // ---------------------------------------------------------------------
  // POST /api/admin/sync-config
  // ---------------------------------------------------------------------

  /** The route's own schema: a provider tag of the enumeration and a
      configuration object. */
  const SyncConfigSchema: Shape := map["provider" := OneOf(["ldap", "google"]), "config" := AnyRecord]

  predicate ConfigBodyOk(body: Body) {
    && "provider" in body && body["provider"].Text? && body["provider"].s in {"ldap", "google"}
    && "config" in body && body["config"].Record?
  }

  lemma SyncConfigSchemaContract(body: Body)
    ensures ParseObject(SyncConfigSchema, body, NoEmailCheck).Some? <==> ConfigBodyOk(body)
    ensures ParseObject(SyncConfigSchema, body, NoEmailCheck).Some? ==>
      ParseObject(SyncConfigSchema, body, NoEmailCheck).value == map["provider" := body["provider"], "config" := body["config"]]
  {
    var r := ParseObject(SyncConfigSchema, body, NoEmailCheck);
    assert SyncConfigSchema.Keys == {"provider", "config"};
    if r.Some? {
      ParseObjectField(SyncConfigSchema, body, NoEmailCheck, "provider");
      ParseObjectField(SyncConfigSchema, body, NoEmailCheck, "config");
      assert r.value.Keys == {"provider", "config"};
    }
  }

  /** Whether the tenant already has a configuration for the provider. */
  predicate HasConfig(configs: map<Id, SyncConfig>, tenant: Id, provider: string) {
    exists c :: c in configs && configs[c].tenantId == tenant && configs[c].provider == provider
  }

  function DuplicateConfig<T>(provider: string): Response<T> {
    ErrorWith(400, "DUPLICATE_CONFIG", "A sync configuration for " + provider + " already exists")
  }

  /** The route: tenant, body, duplicate check, then one insert. */
  function PostSyncConfig(s: State, tenant: Id, body: Body): (State, Response<(Id, SyncConfig)>) {
    if ResolveTenant(s, tenant).None? then (s, InvalidTenant())
    else match ParseObject(SyncConfigSchema, body, NoEmailCheck)
      case None => (s, ValidationError())
      case Some(data) =>
        var provider := TextOf(data, "provider");
        if HasConfig(s.configs, tenant, provider) then (s, DuplicateConfig(provider))
        else
          var c := SyncConfig(tenant, provider, RecordOf(data, "config"), None);
          (CreateConfig(s, c), Ok((GenId(s.serial), c)))
  }

  /** Which answer the route gives: 401 for an unknown tenant, 400
      VALIDATION_ERROR for a body the schema rejects, 400 DUPLICATE_CONFIG when
      the tenant already has a configuration for the provider, and otherwise
      the created configuration. Every error leaves the database as it was. */
  lemma PostSyncConfigAnswers(s: State, tenant: Id, body: Body)
    ensures PostSyncConfig(s, tenant, body).1 == InvalidTenant() <==> tenant !in s.tenants
    ensures PostSyncConfig(s, tenant, body).1 == ValidationError() <==> tenant in s.tenants && !ConfigBodyOk(body)
    ensures PostSyncConfig(s, tenant, body).1.Err? && PostSyncConfig(s, tenant, body).1.code == Some("DUPLICATE_CONFIG") <==>
      tenant in s.tenants && ConfigBodyOk(body) && HasConfig(s.configs, tenant, body["provider"].s)
    ensures PostSyncConfig(s, tenant, body).1.Ok? <==>
      tenant in s.tenants && ConfigBodyOk(body) && !HasConfig(s.configs, tenant, body["provider"].s)
    ensures PostSyncConfig(s, tenant, body).1.Err? ==> PostSyncConfig(s, tenant, body).0 == s
  {
    SyncConfigSchemaContract(body);
  }

  /** A created configuration belongs to the tenant, has the body's provider
      and settings, has never been synced, and is the only change. */
  lemma PostSyncConfigCreates(s: State, tenant: Id, body: Body)
    requires PostSyncConfig(s, tenant, body).1.Ok?
    ensures ConfigBodyOk(body)
    ensures PostSyncConfig(s, tenant, body).1.data ==
      (GenId(s.serial), SyncConfig(tenant, body["provider"].s, body["config"].entries, None))
    ensures PostSyncConfig(s, tenant, body).0 ==
      s.(configs := s.configs[GenId(s.serial) := SyncConfig(tenant, body["provider"].s, body["config"].entries, None)],
         serial := s.serial + 1)
  {
    SyncConfigSchemaContract(body);
  }

  /** The route keeps at most one configuration per tenant and provider, and
      the database's own constraints. */
  lemma PostSyncConfigKeepsInvariants(s: State, tenant: Id, body: Body)
    requires Consistent(s) && ConfigsUnique(s.configs)
    ensures Consistent(PostSyncConfig(s, tenant, body).0)
    ensures ConfigsUnique(PostSyncConfig(s, tenant, body).0.configs)
  {
    if PostSyncConfig(s, tenant, body).1.Ok? {
      PostSyncConfigCreates(s, tenant, body);
      PostSyncConfigAnswers(s, tenant, body);
      var c := SyncConfig(tenant, body["provider"].s, body["config"].entries, None);
      CreateConfigKeepsConsistent(s, c);
      GenIdFresh(s);
      NewConfigKeepsUnique(s.configs, GenId(s.serial), c);
    }
  }

  lemma NewConfigKeepsUnique(configs: map<Id, SyncConfig>, id: Id, c: SyncConfig)
    requires ConfigsUnique(configs) && id !in configs && !HasConfig(configs, c.tenantId, c.provider)
    ensures ConfigsUnique(configs[id := c])
  {
  }

  /** After a creation, a sync run's lookup of the tenant's configuration for
      that provider can only find the new one. */
  lemma PostSyncConfigFindable(s: State, tenant: Id, body: Body, choice: Option<Id>)
    requires Consistent(s) && ConfigsUnique(s.configs)
    requires PostSyncConfig(s, tenant, body).1.Ok?
    ensures ConfigChoice(choice, PostSyncConfig(s, tenant, body).0.configs, tenant, body["provider"].s) <==>
      choice == Some(GenId(s.serial))
  {
    PostSyncConfigCreates(s, tenant, body);
    PostSyncConfigKeepsInvariants(s, tenant, body);
    var s2 := PostSyncConfig(s, tenant, body).0;
    var id := GenId(s.serial);
    var provider := body["provider"].s;
    assert id in s2.configs && s2.configs[id].tenantId == tenant && s2.configs[id].provider == provider;
    if choice.Some? && choice.value != id && choice.value in s2.configs {
      var c := choice.value;
      assert s2.configs[c].tenantId != tenant || s2.configs[c].provider != provider;
    }
  }

  method PostSyncConfigOn(db: Database, tenant: Id, body: Body) returns (resp: Response<(Id, SyncConfig)>)
    modifies db
    ensures (db.Snapshot(), resp) == PostSyncConfig(old(db.Snapshot()), tenant, body)
  {
    if ResolveTenant(db.Snapshot(), tenant).None? {
      return InvalidTenant();
    }
    var parsed := ParseObject(SyncConfigSchema, body, NoEmailCheck);
    if parsed.None? {
      return ValidationError();
    }
    var provider := TextOf(parsed.value, "provider");
    var existing := db.FirstConfigFor(tenant, provider);
    if existing.Some? {
      return DuplicateConfig(provider);
    }
    var c := SyncConfig(tenant, provider, RecordOf(parsed.value, "config"), None);
    var id := db.ConfigCreate(c);
    resp := Ok((id, c));
  }

  // ---------------------------------------------------------------------
  // GET /api/admin/sync-config
  // ---------------------------------------------------------------------

  /** The configurations the database listed, with their ids. */
  function GetSyncConfigs(s: State, tenant: Id, ids: seq<Id>): Response<seq<(Id, SyncConfig)>>
    requires forall i :: 0 <= i < |ids| ==> ids[i] in s.configs
  {
    if ResolveTenant(s, tenant).None? then InvalidTenant()
    else Ok(seq(|ids|, i requires 0 <= i < |ids| => (ids[i], s.configs[ids[i]])))
  }

  /** The listing holds exactly the tenant's configurations, each once. */
  lemma GetSyncConfigsListsTenant(s: State, tenant: Id, ids: seq<Id>)
    requires ListsConfigs(ids, s.configs, Some(tenant))
    ensures tenant !in s.tenants ==> GetSyncConfigs(s, tenant, ids) == InvalidTenant()
    ensures tenant in s.tenants ==>
      && GetSyncConfigs(s, tenant, ids).Ok?
      && (forall i :: 0 <= i < |GetSyncConfigs(s, tenant, ids).data| ==>
            && GetSyncConfigs(s, tenant, ids).data[i].0 in s.configs
            && GetSyncConfigs(s, tenant, ids).data[i].1 == s.configs[GetSyncConfigs(s, tenant, ids).data[i].0]
            && GetSyncConfigs(s, tenant, ids).data[i].1.tenantId == tenant)
      && (forall i, j :: 0 <= i < j < |GetSyncConfigs(s, tenant, ids).data| ==>
            GetSyncConfigs(s, tenant, ids).data[i].0 != GetSyncConfigs(s, tenant, ids).data[j].0)
      && (forall c :: c in s.configs && s.configs[c].tenantId == tenant ==>
            exists i :: 0 <= i < |GetSyncConfigs(s, tenant, ids).data| && GetSyncConfigs(s, tenant, ids).data[i].0 == c)
  {
    if tenant in s.tenants {
      var d := GetSyncConfigs(s, tenant, ids).data;
      forall c | c in s.configs && s.configs[c].tenantId == tenant
        ensures exists i :: 0 <= i < |d| && d[i].0 == c
      {
        var i :| 0 <= i < |ids| && ids[i] == c;
        assert d[i].0 == c;
      }
    }
  }

  method GetSyncConfigsOn(db: Database, tenant: Id) returns (resp: Response<seq<(Id, SyncConfig)>>, ids: seq<Id>)
    ensures ListsConfigs(ids, db.configs, Some(tenant))
    ensures resp == GetSyncConfigs(db.Snapshot(), tenant, ids)
  {
    ids := FindConfigs(db.configs, Some(tenant));
    resp := GetSyncConfigs(db.Snapshot(), tenant, ids);
  }

  // ---------------------------------------------------------------------
  // POST /api/admin/tenants
  // ---------------------------------------------------------------------

  const TenantCreateSchema: Shape := map["name" := NonEmpty, "domain" := NonEmpty, "customerId" := NonEmpty]

  predicate TenantBodyOk(body: Body) {
    NonEmptyText(Lookup(body, "name")) && NonEmptyText(Lookup(body, "domain")) && NonEmptyText(Lookup(body, "customerId"))
  }

  lemma TenantSchemaContract(body: Body)
    ensures ParseObject(TenantCreateSchema, body, NoEmailCheck).Some? <==> TenantBodyOk(body)
    ensures ParseObject(TenantCreateSchema, body, NoEmailCheck).Some? ==>
      ParseObject(TenantCreateSchema, body, NoEmailCheck).value ==
        map["name" := body["name"], "domain" := body["domain"], "customerId" := body["customerId"]]
  {
    var r := ParseObject(TenantCreateSchema, body, NoEmailCheck);
    assert TenantCreateSchema.Keys == {"name", "domain", "customerId"};
    if r.Some? {
      ParseObjectField(TenantCreateSchema, body, NoEmailCheck, "name");
      ParseObjectField(TenantCreateSchema, body, NoEmailCheck, "domain");
      ParseObjectField(TenantCreateSchema, body, NoEmailCheck, "customerId");
      assert r.value.Keys == {"name", "domain", "customerId"};
    }
  }

  /** Whether a tenant already has the domain or the customer id. */
  predicate TenantClash(tenants: map<Id, Tenant>, domain: string, customerId: string) {
    exists t :: t in tenants && (tenants[t].domain == domain || tenants[t].customerId == customerId)
  }

  const DefaultTeamName := "Default Team"
  const DefaultTeamDescription := "Default team for new members"

  /** The route, with the 32 random bytes its API key is made of. */
  function PostTenant(s: State, body: Body, entropy: seq<byte>): (State, Response<(Id, Tenant)>)
    requires |entropy| == 32
  {
    match ParseObject(TenantCreateSchema, body, NoEmailCheck)
    case None => (s, ValidationError())
    case Some(data) =>
      var domain := TextOf(data, "domain");
      var customerId := TextOf(data, "customerId");
      if TenantClash(s.tenants, domain, customerId) then
        (s, ErrorWith(400, "DUPLICATE_TENANT", "A tenant with this domain or customer ID already exists"))
      else
        var tenant := Tenant(TextOf(data, "name"), domain, customerId, Encode(entropy));
        var id := GenId(s.serial);
        var withTenant := CreateTenant(s, tenant);
        (CreateTeam(withTenant, Team(id, DefaultTeamName, DefaultTeamDescription)), Ok((id, tenant)))
  }

  /** Which answer the route gives; every error leaves the database as it was. */
  lemma PostTenantAnswers(s: State, body: Body, entropy: seq<byte>)
    requires |entropy| == 32
    ensures PostTenant(s, body, entropy).1 == ValidationError() <==> !TenantBodyOk(body)
    ensures PostTenant(s, body, entropy).1.Err? && PostTenant(s, body, entropy).1.code == Some("DUPLICATE_TENANT") <==>
      TenantBodyOk(body) && TenantClash(s.tenants, body["domain"].s, body["customerId"].s)
    ensures PostTenant(s, body, entropy).1.Ok? <==>
      TenantBodyOk(body) && !TenantClash(s.tenants, body["domain"].s, body["customerId"].s)
    ensures PostTenant(s, body, entropy).1.Err? ==> PostTenant(s, body, entropy).0 == s
  {
    TenantSchemaContract(body);
  }

  /** A created tenant has the body's fields and an API key of 64 hex digits
      that decodes to the random bytes; the tenant and its default team are
      the only rows added. */
  lemma PostTenantCreates(s: State, body: Body, entropy: seq<byte>)
    requires |entropy| == 32
    requires PostTenant(s, body, entropy).1.Ok?
    ensures TenantBodyOk(body)
    ensures PostTenant(s, body, entropy).1.data ==
      (GenId(s.serial), Tenant(body["name"].s, body["domain"].s, body["customerId"].s, Encode(entropy)))
    ensures PostTenant(s, body, entropy).0 ==
      s.(tenants := s.tenants[GenId(s.serial) := PostTenant(s, body, entropy).1.data.1],
         teams := s.teams[GenId(s.serial + 1) := Team(GenId(s.serial), DefaultTeamName, DefaultTeamDescription)],
         serial := s.serial + 2)
  {
    TenantSchemaContract(body);
  }

  /** The generated API key: 64 hexadecimal digits that decode back to the
      32 random bytes. */
  lemma PostTenantApiKey(s: State, body: Body, entropy: seq<byte>)
    requires |entropy| == 32
    requires PostTenant(s, body, entropy).1.Ok?
    ensures |PostTenant(s, body, entropy).1.data.1.apiKey| == 64
    ensures IsHexText(PostTenant(s, body, entropy).1.data.1.apiKey)
    ensures Decode(PostTenant(s, body, entropy).1.data.1.apiKey) == Some(entropy)
  {
    PostTenantCreates(s, body, entropy);
    DecodeEncode(entropy);
  }

  /** The route keeps domains and customer ids unique, and the database's
      own constraints. */
  lemma PostTenantKeepsInvariants(s: State, body: Body, entropy: seq<byte>)
    requires |entropy| == 32
    requires Consistent(s) && TenantsUnique(s.tenants)
    ensures Consistent(PostTenant(s, body, entropy).0)
    ensures TenantsUnique(PostTenant(s, body, entropy).0.tenants)
  {
    if PostTenant(s, body, entropy).1.Ok? {
      PostTenantCreates(s, body, entropy);
      PostTenantAnswers(s, body, entropy);
      var t := PostTenant(s, body, entropy).1.data.1;
      var s1 := CreateTenant(s, t);
      CreateTenantKeepsConsistent(s, t);
      CreateTeamKeepsConsistent(s1, Team(GenId(s.serial), DefaultTeamName, DefaultTeamDescription));
      assert PostTenant(s, body, entropy).0 == CreateTeam(s1, Team(GenId(s.serial), DefaultTeamName, DefaultTeamDescription));
      GenIdFresh(s);
      NewTenantKeepsUnique(s.tenants, GenId(s.serial), t);
    }
  }

  lemma NewTenantKeepsUnique(tenants: map<Id, Tenant>, id: Id, t: Tenant)
    requires TenantsUnique(tenants) && id !in tenants && !TenantClash(tenants, t.domain, t.customerId)
    ensures TenantsUnique(tenants[id := t])
  {
  }

  /** The new tenant has exactly one team, its default team, so the sync's
      lookup of a default team for it finds that one. */
  lemma PostTenantHasDefaultTeam(s: State, body: Body, entropy: seq<byte>, team: Option<Id>)
    requires |entropy| == 32
    requires Consistent(s)
    requires PostTenant(s, body, entropy).1.Ok?
    ensures TeamChoice(team, PostTenant(s, body, entropy).0.teams, GenId(s.serial)) <==> team == Some(GenId(s.serial + 1))
  {
    PostTenantCreates(s, body, entropy);
    GenIdFresh(s);
    LaterIdsDiffer(s.serial);
    var id, teamId := GenId(s.serial), GenId(s.serial + 1);
    var teams := PostTenant(s, body, entropy).0.teams;
    assert teams == s.teams[teamId := Team(id, DefaultTeamName, DefaultTeamDescription)];
    assert forall t :: t in s.teams ==> s.teams[t].tenantId != id;
    assert forall t :: t in teams && teams[t].tenantId == id ==> t == teamId;
    if team.None? {
      assert !TeamChoice(team, teams, id) by {
        assert teamId in teams && teams[teamId].tenantId == id;
      }
    }
  }

  method PostTenantOn(db: Database, body: Body, entropy: seq<byte>) returns (resp: Response<(Id, Tenant)>)
    requires |entropy| == 32
    modifies db
    ensures (db.Snapshot(), resp) == PostTenant(old(db.Snapshot()), body, entropy)
  {
    var parsed := ParseObject(TenantCreateSchema, body, NoEmailCheck);
    if parsed.None? {
      return ValidationError();
    }
    var domain := TextOf(parsed.value, "domain");
    var customerId := TextOf(parsed.value, "customerId");
    var existing := db.FirstTenantMatching(domain, customerId);
    if existing.Some? {
      return ErrorWith(400, "DUPLICATE_TENANT", "A tenant with this domain or customer ID already exists");
    }
    ghost var s0 := db.Snapshot();
    assert !TenantClash(s0.tenants, domain, customerId);
    var tenant := Tenant(TextOf(parsed.value, "name"), domain, customerId, Encode(entropy));
    var id := db.TenantCreate(tenant);
    var _ := db.TeamCreate(Team(id, DefaultTeamName, DefaultTeamDescription));
    resp := Ok((id, tenant));
    assert db.Snapshot() == CreateTeam(CreateTenant(s0, tenant), Team(id, DefaultTeamName, DefaultTeamDescription));
  }
}
