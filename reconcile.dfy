/** The loop both directory syncs share: every directory user is matched
    against the tenant's members by external id, using an index built once
    before the loop; a match is updated, any other user is created in the
    tenant's default team. The first write that throws ends the loop, and
    the writes before it stay (there is no transaction). */
module Reconciler {
  import opened Js
  import opened Ids
  import opened Store
  import opened Directory

  // ---------------------------------------------------------------------
  // The index of existing members
  // ---------------------------------------------------------------------

  /** `new Map(existing.filter(m => m.externalId).map(m => [m.externalId, m]))`
      over the tenant's members: every key is the truthy external id of a
      member of the tenant, and every such external id is a key. When two
      members share an external id, the database's order decides which one
      the map keeps. */
  ghost predicate IsIndexOf(index: map<string, Id>, members: map<Id, Member>, tenant: Id) {
    && (forall x :: x in index ==>
          && index[x] in members
          && members[index[x]].tenantId == Some(tenant)
          && members[index[x]].externalId == Some(x)
          && x != "")
    && (forall k :: k in members && members[k].tenantId == Some(tenant) && Truthy(members[k].externalId) ==>
          members[k].externalId.value in index)
  }

  /** Builds the index, one existing member at a time. */
  method IndexByExternalId(members: map<Id, Member>, tenant: Id) returns (index: map<string, Id>)
    ensures IsIndexOf(index, members, tenant)
  {
    index := map[];
    var todo := members.Keys;
    while todo != {}
      invariant todo <= members.Keys
      invariant forall x :: x in index ==>
        && index[x] in members && index[x] !in todo
        && members[index[x]].tenantId == Some(tenant)
        && members[index[x]].externalId == Some(x)
        && x != ""
      invariant forall k :: k in members && k !in todo && members[k].tenantId == Some(tenant) && Truthy(members[k].externalId) ==>
        members[k].externalId.value in index
      decreases todo
    {
      var k :| k in todo;
      var m := members[k];
      if m.tenantId == Some(tenant) && Truthy(m.externalId) {
        index := index[m.externalId.value := k];
      }
      todo := todo - {k};
    }
  }

  /** Some index of the members, for runs that stop before building one. */
  ghost function AnIndex(members: map<Id, Member>, tenant: Id): (index: map<string, Id>)
    ensures IsIndexOf(index, members, tenant)
    decreases |members|
  {
    if members == map[] then map[]
    else
      var k :| k in members;
      var others := members - {k};
      var rest := AnIndex(others, tenant);
      var m := members[k];
      assert forall j :: j in members && j != k ==> j in others && others[j] == members[j];
      if m.tenantId == Some(tenant) && Truthy(m.externalId) then rest[m.externalId.value := k] else rest
  }

  /** `existingMembersByExternalId.get(externalId)`; an undefined key finds nothing. */
  function Lookup(index: map<string, Id>, externalId: Option<string>): (hit: Option<Id>)
    ensures hit.Some? <==> externalId.Some? && externalId.value in index
    ensures hit.Some? ==> hit.value in index.Values
  {
    if externalId.Some? && externalId.value in index then Some(index[externalId.value]) else None
  }

  // ---------------------------------------------------------------------
  // One user, and the whole loop
  // ---------------------------------------------------------------------

  /** The row `member.create` inserts for a user the index does not know. */
  function NewMember(tenant: Id, team: Id, c: Candidate, now: Time): Member
    requires c.name.Some?
  {
    Member(Some(tenant), c.externalId, c.name.value, c.email, "Member", team, false, c.phone, [], now, now)
  }

  /** The defaults a member created by the sync carries. */
  predicate HasSyncDefaults(m: Member, tenant: Id, team: Id, now: Time) {
    && m.tenantId == Some(tenant) && m.role == "Member" && m.teamId == team
    && !m.isOnCall && m.skills == [] && m.joinedAt == now && m.updatedAt == now
  }

  /** What the loop body does with one user. A create without a name is
      rejected before it reaches the database. */
  function ApplyStep(s: State, index: map<string, Id>, tenant: Id, team: Id, now: Time, step: Step): Result<State, Error> {
    match step
    case Skip => Success(s)
    case Throw(e) => Failure(e)
    case Apply(c) =>
      var hit := Lookup(index, c.externalId);
      if hit.Some? then UpdateMember(s, hit.value, c.name, c.email, c.phone, now)
      else if c.name.None? then Failure(MissingName)
      else CreateMember(s, NewMember(tenant, team, c, now))
  }

  /** Where the loop ends: the state, and the error that ended it early. */
  datatype Run = Run(state: State, failure: Option<Error>)

  /** The loop over the users, one step per user, as a left fold. */
  function Reconcile(s: State, index: map<string, Id>, tenant: Id, team: Id, now: Time, steps: seq<Step>): Run
    decreases |steps|
  {
    if steps == [] then Run(s, None)
    else
      var r := Reconcile(s, index, tenant, team, now, steps[..|steps| - 1]);
      if r.failure.Some? then r
      else
        var w := ApplyStep(r.state, index, tenant, team, now, steps[|steps| - 1]);
        Run(After(r.state, w), ErrorOf(w))
  }

  /** Once a prefix of the users has failed, no later user changes anything. */
  lemma {:induction false} FailureIsFinal(s: State, index: map<string, Id>, tenant: Id, team: Id, now: Time, steps: seq<Step>, i: nat, j: nat)
    requires i <= j <= |steps|
    requires Reconcile(s, index, tenant, team, now, steps[..i]).failure.Some?
    ensures Reconcile(s, index, tenant, team, now, steps[..j]) == Reconcile(s, index, tenant, team, now, steps[..i])
    decreases j
  {
    if j > i {
      FailureIsFinal(s, index, tenant, team, now, steps, i, j - 1);
      assert steps[..j][..j - 1] == steps[..j - 1];
    }
  }

  /** User k is where the run stopped: the users before it were processed
      without error and user k's write threw. */
  ghost predicate FailedAt(s: State, index: map<string, Id>, tenant: Id, team: Id, now: Time, steps: seq<Step>, k: int) {
    && 0 <= k < |steps|
    && var before := Reconcile(s, index, tenant, team, now, steps[..k]);
       var w := ApplyStep(before.state, index, tenant, team, now, steps[k]);
       && before.failure.None?
       && w.Failure?
       && Reconcile(s, index, tenant, team, now, steps) == Run(before.state, Some(w.error))
  }

  /** A run that fails stopped at some user k: the users before k were all
      processed without error, and user k's write threw, leaving the state
      the earlier users produced. */
  lemma {:induction false} FailureStopsAtOneUser(s: State, index: map<string, Id>, tenant: Id, team: Id, now: Time, steps: seq<Step>)
    requires Reconcile(s, index, tenant, team, now, steps).failure.Some?
    ensures exists k :: FailedAt(s, index, tenant, team, now, steps, k)
    decreases |steps|
  {
    var n := |steps| - 1;
    var prefix := steps[..n];
    var before := Reconcile(s, index, tenant, team, now, prefix);
    if before.failure.Some? {
      FailureStopsAtOneUser(s, index, tenant, team, now, prefix);
      var k :| FailedAt(s, index, tenant, team, now, prefix, k);
      assert prefix[..k] == steps[..k] && prefix[k] == steps[k];
      assert FailedAt(s, index, tenant, team, now, steps, k);
    } else {
      assert FailedAt(s, index, tenant, team, now, steps, n);
    }
  }

  /** Running only skipped users changes nothing. */
  lemma {:induction false} SkipsChangeNothing(s: State, index: map<string, Id>, tenant: Id, team: Id, now: Time, steps: seq<Step>)
    requires forall i :: 0 <= i < |steps| ==> steps[i].Skip?
    ensures Reconcile(s, index, tenant, team, now, steps) == Run(s, None)
    decreases |steps|
  {
    if steps != [] {
      SkipsChangeNothing(s, index, tenant, team, now, steps[..|steps| - 1]);
    }
  }

  /** A skipped user changes nothing: the loop over all users ends exactly
      where the loop over the users that are not skipped ends. */
  lemma {:induction false} SkipsLeaveNoTrace(s: State, index: map<string, Id>, tenant: Id, team: Id, now: Time, steps: seq<Step>)
    ensures Reconcile(s, index, tenant, team, now, steps) == Reconcile(s, index, tenant, team, now, NonSkips(steps))
    decreases |steps|
  {
    if steps != [] {
      var n := |steps| - 1;
      var p := NonSkips(steps[..n]);
      SkipsLeaveNoTrace(s, index, tenant, team, now, steps[..n]);
      if !steps[n].Skip? {
        assert (p + [steps[n]])[..|p|] == p;
      }
    }
  }

  /** The loop writes the members table and the id generator, nothing else. */
  lemma {:induction false} ReconcileWritesOnlyMembers(s: State, index: map<string, Id>, tenant: Id, team: Id, now: Time, steps: seq<Step>)
    ensures var r := Reconcile(s, index, tenant, team, now, steps).state;
      r == s.(members := r.members, serial := r.serial)
    decreases |steps|
  {
    if steps != [] {
      ReconcileWritesOnlyMembers(s, index, tenant, team, now, steps[..|steps| - 1]);
    }
  }

  // ---------------------------------------------------------------------
  // What the loop keeps
  // ---------------------------------------------------------------------

  /** Two versions of a member agree on everything the sync does not own:
      the application manages role, team, on-call status and skills. */
  predicate KeepsLocalFields(m: Member, m0: Member) {
    && m.tenantId == m0.tenantId && m.externalId == m0.externalId
    && m.role == m0.role && m.teamId == m0.teamId && m.isOnCall == m0.isOnCall
    && m.skills == m0.skills && m.joinedAt == m0.joinedAt
  }

  /** How a state produced by the loop relates to the state it started from. */
  ghost predicate Evolved(s0: State, s: State, index: map<string, Id>, tenant: Id, team: Id, now: Time) {
    && s.tenants == s0.tenants && s.teams == s0.teams && s.badges == s0.badges
    && s.memberBadges == s0.memberBadges && s.configs == s0.configs
    && s0.serial <= s.serial
    && (forall k :: k in s0.members ==> k in s.members && KeepsLocalFields(s.members[k], s0.members[k]))
    && (forall k :: k in s0.members && k !in index.Values ==> s.members[k] == s0.members[k])
    && (forall k :: k in s.members && k !in s0.members ==> HasSyncDefaults(s.members[k], tenant, team, now))
  }

  /** The facts about the input every lemma below starts from. */
  ghost predicate ReadyToRun(s0: State, index: map<string, Id>, tenant: Id, team: Id) {
    && Consistent(s0)
    && IsIndexOf(index, s0.members, tenant)
    && team in s0.teams && s0.teams[team].tenantId == tenant
  }

  lemma UpdateKeeps(s0: State, s: State, index: map<string, Id>, tenant: Id, team: Id, now: Time, id: Id, c: Candidate)
    requires ReadyToRun(s0, index, tenant, team)
    requires Consistent(s) && Evolved(s0, s, index, tenant, team, now)
    requires id in index.Values
    requires UpdateMember(s, id, c.name, c.email, c.phone, now).Success?
    ensures var s' := UpdateMember(s, id, c.name, c.email, c.phone, now).value;
      Consistent(s') && Evolved(s0, s', index, tenant, team, now)
  {
    UpdateKeepsEmailsUnique(s, id, c, now);
    UpdateKeepsForeignKeys(s, id, c, now);
    UpdateEvolves(s0, s, index, tenant, team, now, id, c);
  }

  /** An update that passed the e-mail check keeps e-mails unique. */
  lemma UpdateKeepsEmailsUnique(s: State, id: Id, c: Candidate, now: Time)
    requires EmailsUnique(s.members) && UpdateMember(s, id, c.name, c.email, c.phone, now).Success?
    ensures EmailsUnique(UpdateMember(s, id, c.name, c.email, c.phone, now).value.members)
  {
    var s' := UpdateMember(s, id, c.name, c.email, c.phone, now).value;
    forall a, b | a in s'.members && b in s'.members && a != b
      ensures s'.members[a].email != s'.members[b].email
    {
      if a == id {
        assert !(b in s.members && Some(b) != Some(id) && s.members[b].email == c.email);
      } else if b == id {
        assert !(a in s.members && Some(a) != Some(id) && s.members[a].email == c.email);
      }
    }
  }

  /** An update keeps the row set and every reference. */
  lemma UpdateKeepsForeignKeys(s: State, id: Id, c: Candidate, now: Time)
    requires FreshIds(s) && ForeignKeys(s) && UpdateMember(s, id, c.name, c.email, c.phone, now).Success?
    ensures var s' := UpdateMember(s, id, c.name, c.email, c.phone, now).value;
      FreshIds(s') && ForeignKeys(s')
  {
    var s' := UpdateMember(s, id, c.name, c.email, c.phone, now).value;
    assert s'.members.Keys == s.members.Keys;
    assert forall k :: k in s'.members ==> s'.members[k].teamId == s.members[k].teamId && s'.members[k].tenantId == s.members[k].tenantId;
  }

  lemma UpdateEvolves(s0: State, s: State, index: map<string, Id>, tenant: Id, team: Id, now: Time, id: Id, c: Candidate)
    requires Evolved(s0, s, index, tenant, team, now) && id in index.Values
    requires UpdateMember(s, id, c.name, c.email, c.phone, now).Success?
    ensures Evolved(s0, UpdateMember(s, id, c.name, c.email, c.phone, now).value, index, tenant, team, now)
  {
    var s' := UpdateMember(s, id, c.name, c.email, c.phone, now).value;
    assert s'.members.Keys == s.members.Keys;
  }

  /** Inserting at the next generated id keeps the generator ahead of every table. */
  lemma CreateKeepsFresh(s: State, m: Member)
    requires FreshIds(s) && CreateMember(s, m).Success?
    ensures FreshIds(CreateMember(s, m).value)
  {
    var s' := CreateMember(s, m).value;
    forall n: nat | s'.serial <= n
      ensures GenId(n) !in s'.members
    {
      GenIdInjective(n, s.serial);
    }
  }

  /** An insert that passed the e-mail check keeps e-mails unique. */
  lemma CreateKeepsEmailsUnique(s: State, m: Member)
    requires FreshIds(s) && EmailsUnique(s.members) && CreateMember(s, m).Success?
    ensures EmailsUnique(CreateMember(s, m).value.members)
  {
    var id := GenId(s.serial);
    var ms := CreateMember(s, m).value.members;
    GenIdFresh(s);
    forall a, b | a in ms && b in ms && a != b
      ensures ms[a].email != ms[b].email
    {
      if a == id {
        assert !(b in s.members && Some(b) != None && s.members[b].email == m.email);
      } else if b == id {
        assert !(a in s.members && Some(a) != None && s.members[a].email == m.email);
      }
    }
  }

  lemma CreateKeeps(s0: State, s: State, index: map<string, Id>, tenant: Id, team: Id, now: Time, c: Candidate)
    requires ReadyToRun(s0, index, tenant, team)
    requires Consistent(s) && Evolved(s0, s, index, tenant, team, now)
    requires c.name.Some? && CreateMember(s, NewMember(tenant, team, c, now)).Success?
    ensures var s' := CreateMember(s, NewMember(tenant, team, c, now)).value;
      Consistent(s') && Evolved(s0, s', index, tenant, team, now)
  {
    var m := NewMember(tenant, team, c, now);
    var s' := CreateMember(s, m).value;
    GenIdFresh(s);
    CreateKeepsFresh(s, m);
    CreateKeepsEmailsUnique(s, m);
    assert s.teams[team].tenantId == tenant;
    CreateKeepsForeignKeys(s, m);
    CreateEvolves(s0, s, index, tenant, team, now, m);
  }

  lemma CreateEvolves(s0: State, s: State, index: map<string, Id>, tenant: Id, team: Id, now: Time, m: Member)
    requires FreshIds(s) && Evolved(s0, s, index, tenant, team, now)
    requires HasSyncDefaults(m, tenant, team, now) && CreateMember(s, m).Success?
    ensures Evolved(s0, CreateMember(s, m).value, index, tenant, team, now)
  {
    var id := GenId(s.serial);
    var s' := CreateMember(s, m).value;
    assert s'.members == s.members[id := m];
    assert id !in s.members;
  }

  /** An insert whose team and tenant exist keeps every reference valid. */
  lemma CreateKeepsForeignKeys(s: State, m: Member)
    requires ForeignKeys(s) && CreateMember(s, m).Success?
    requires m.teamId in s.teams && (m.tenantId.Some? ==> m.tenantId.value in s.tenants)
    ensures ForeignKeys(CreateMember(s, m).value)
  {
  }

  /** One user keeps the loop's invariant. */
  lemma StepKeeps(s0: State, s: State, index: map<string, Id>, tenant: Id, team: Id, now: Time, step: Step)
    requires ReadyToRun(s0, index, tenant, team)
    requires Consistent(s) && Evolved(s0, s, index, tenant, team, now)
    ensures var s' := After(s, ApplyStep(s, index, tenant, team, now, step));
      Consistent(s') && Evolved(s0, s', index, tenant, team, now)
  {
    if step.Apply? {
      var c := step.candidate;
      var hit := Lookup(index, c.externalId);
      if hit.Some? {
        if UpdateMember(s, hit.value, c.name, c.email, c.phone, now).Success? {
          UpdateKeeps(s0, s, index, tenant, team, now, hit.value, c);
        }
      } else if c.name.Some? && CreateMember(s, NewMember(tenant, team, c, now)).Success? {
        CreateKeeps(s0, s, index, tenant, team, now, c);
      }
    }
  }

  /** The loop keeps the database consistent (fresh ids, valid references,
      unique e-mails), writes only the members table, never changes a
      member's role, team, tenant, external id, on-call status, skills or
      join date, touches existing members only through the index, and gives
      every member it creates the sync defaults. */
  lemma {:induction false} ReconcileKeeps(s0: State, index: map<string, Id>, tenant: Id, team: Id, now: Time, steps: seq<Step>)
    requires ReadyToRun(s0, index, tenant, team)
    ensures var r := Reconcile(s0, index, tenant, team, now, steps);
      Consistent(r.state) && Evolved(s0, r.state, index, tenant, team, now)
    decreases |steps|
  {
    if steps != [] {
      var prefix := steps[..|steps| - 1];
      ReconcileKeeps(s0, index, tenant, team, now, prefix);
      var r := Reconcile(s0, index, tenant, team, now, prefix);
      if r.failure.None? {
        var w := ApplyStep(r.state, index, tenant, team, now, steps[|steps| - 1]);
        StepKeeps(s0, r.state, index, tenant, team, now, steps[|steps| - 1]);
        assert Reconcile(s0, index, tenant, team, now, steps).state == After(r.state, w);
      } else {
        assert Reconcile(s0, index, tenant, team, now, steps) == r;
      }
    }
  }

  /** Role, team, tenant, on-call status, skills and join date of every
      existing member survive a run, whether it completes or not. */
  lemma LocallyManagedFieldsSurvive(s0: State, index: map<string, Id>, tenant: Id, team: Id, now: Time, steps: seq<Step>, k: Id)
    requires ReadyToRun(s0, index, tenant, team) && k in s0.members
    ensures var s := Reconcile(s0, index, tenant, team, now, steps).state;
      && k in s.members
      && s.members[k].role == s0.members[k].role
      && s.members[k].teamId == s0.members[k].teamId
      && s.members[k].tenantId == s0.members[k].tenantId
      && s.members[k].isOnCall == s0.members[k].isOnCall
      && s.members[k].skills == s0.members[k].skills
      && s.members[k].joinedAt == s0.members[k].joinedAt
  {
    ReconcileKeeps(s0, index, tenant, team, now, steps);
  }

  /** A member the index does not point at (another tenant's, or one without
      an external id) is left exactly as it was. */
  lemma UnindexedMembersUntouched(s0: State, index: map<string, Id>, tenant: Id, team: Id, now: Time, steps: seq<Step>, k: Id)
    requires ReadyToRun(s0, index, tenant, team) && k in s0.members
    requires s0.members[k].tenantId != Some(tenant) || !Truthy(s0.members[k].externalId)
    ensures var s := Reconcile(s0, index, tenant, team, now, steps).state;
      k in s.members && s.members[k] == s0.members[k]
  {
    ReconcileKeeps(s0, index, tenant, team, now, steps);
    assert k !in index.Values;
  }

  /** Every member the loop creates, whether the run completes or not, is
      built from a user whose external id the index did not know, with that
      user's name, e-mail, phone and external id, and so belongs to the
      tenant and its default team, with role "Member", no skills and not on
      call. */
  lemma NewMembersHaveDefaults(s0: State, index: map<string, Id>, tenant: Id, team: Id, now: Time, steps: seq<Step>, k: Id)
    requires ReadyToRun(s0, index, tenant, team)
    requires k in Reconcile(s0, index, tenant, team, now, steps).state.members && k !in s0.members
    ensures HasSyncDefaults(Reconcile(s0, index, tenant, team, now, steps).state.members[k], tenant, team, now)
    ensures exists i :: 0 <= i < |steps| && FromMissedUser(Reconcile(s0, index, tenant, team, now, steps).state, index, tenant, team, now, steps[i], k)
  {
    var m := ProcessedPrefix(s0, index, tenant, team, now, steps);
    var p := steps[..m];
    var s := Reconcile(s0, index, tenant, team, now, p).state;
    ReconcileInserts(s0, index, tenant, team, now, p);
    InsertedFromUser(s0, s, index, tenant, team, now, p, k);
    var i :| 0 <= i < |p| && FromMissedUser(s, index, tenant, team, now, p[i], k);
    assert steps[i] == p[i];
  }

  /** A new row of an account of additions comes from one of its users. */
  lemma InsertedFromUser(s0: State, s: State, index: map<string, Id>, tenant: Id, team: Id, now: Time, steps: seq<Step>, k: Id)
    requires FreshIds(s0) && Inserted(s0, s, index, tenant, team, now, steps)
    requires k in s.members && k !in s0.members
    ensures exists i :: 0 <= i < |steps| && FromMissedUser(s, index, tenant, team, now, steps[i], k)
  {
    IdRangeMembers(s0.serial, s.serial, k);
    var n: nat :| s0.serial <= n < s.serial && k == GenId(n);
    InsertedRow(s0, s, index, tenant, team, now, steps, n);
    var j := n - s0.serial;
    MissIsAUser(index, steps, j);
    var i :| 0 <= i < |steps| && steps[i] == Apply(Misses(index, steps)[j]);
    assert FromMissedUser(s, index, tenant, team, now, steps[i], k);
  }

  /** Row `k` of `s` is the member built from `step`, a user with a name
      whose external id the index does not know. */
  ghost predicate FromMissedUser(s: State, index: map<string, Id>, tenant: Id, team: Id, now: Time, step: Step, k: Id) {
    && step.Apply? && Lookup(index, step.candidate.externalId).None? && step.candidate.name.Some?
    && k in s.members && s.members[k] == NewMember(tenant, team, step.candidate, now)
  }

  /** The loop writes only members: tenants, teams, badges, assignments and
      sync configs are unchanged, and the consistency constraints still hold. */
  lemma OnlyMembersChange(s0: State, index: map<string, Id>, tenant: Id, team: Id, now: Time, steps: seq<Step>)
    requires ReadyToRun(s0, index, tenant, team)
    ensures var s := Reconcile(s0, index, tenant, team, now, steps).state;
      && Consistent(s)
      && s.tenants == s0.tenants && s.teams == s0.teams && s.badges == s0.badges
      && s.memberBadges == s0.memberBadges && s.configs == s0.configs
  {
    ReconcileKeeps(s0, index, tenant, team, now, steps);
  }

  /** The index is not refreshed while the loop runs: two directory users
      with the same external id unknown to the index are both created. */
  lemma StaleIndexCreatesTwice(s0: State, index: map<string, Id>, tenant: Id, team: Id, now: Time, c1: Candidate, c2: Candidate)
    requires ReadyToRun(s0, index, tenant, team)
    requires c1.externalId.Some? && c1.externalId == c2.externalId && c1.externalId.value !in index
    requires c1.name.Some? && c2.name.Some? && c1.email != c2.email
    requires !EmailTaken(s0.members, c1.email, None) && !EmailTaken(s0.members, c2.email, None)
    ensures var r := Reconcile(s0, index, tenant, team, now, [Apply(c1), Apply(c2)]);
      && r.failure.None?
      && GenId(s0.serial) in r.state.members && GenId(s0.serial + 1) in r.state.members
      && GenId(s0.serial) != GenId(s0.serial + 1)
      && r.state.members[GenId(s0.serial)].externalId == c1.externalId
      && r.state.members[GenId(s0.serial + 1)].externalId == c1.externalId
  {
    var steps := [Apply(c1), Apply(c2)];
    assert steps[..1] == [Apply(c1)] && steps[..1][..0] == [];
    var s1 := CreateMember(s0, NewMember(tenant, team, c1, now)).value;
    assert Reconcile(s0, index, tenant, team, now, steps[..1]) == Run(s1, None);
    assert !EmailTaken(s1.members, c2.email, None) by {
      GenIdFresh(s0);
      assert s1.members == s0.members[GenId(s0.serial) := NewMember(tenant, team, c1, now)];
    }
    GenIdInjective(s0.serial, s0.serial + 1);
  }

  // ---------------------------------------------------------------------
  // What the loop adds
  // ---------------------------------------------------------------------

  /** The candidates of the users whose external id the index does not
      know, in the order of the users: the ones the loop inserts. */
  function Misses(index: map<string, Id>, steps: seq<Step>): (r: seq<Candidate>)
    ensures |r| <= |steps|
    decreases |steps|
  {
    if steps == [] then []
    else
      var last := steps[|steps| - 1];
      Misses(index, steps[..|steps| - 1]) +
        (if last.Apply? && Lookup(index, last.candidate.externalId).None? then [last.candidate] else [])
  }

  /** Some user of the loop is matched, through the index, to member k. */
  ghost predicate HitBy(index: map<string, Id>, steps: seq<Step>, k: Id) {
    exists i :: 0 <= i < |steps| && steps[i].Apply? && Lookup(index, steps[i].candidate.externalId) == Some(k)
  }

  /** The row at generated id n is the one inserted for the corresponding
      missed user, counting from counter value `s0.serial`. */
  ghost predicate InsertedAt(s0: State, s: State, tenant: Id, team: Id, now: Time, ms: seq<Candidate>, n: nat) {
    && s0.serial <= n < s0.serial + |ms|
    && ms[n - s0.serial].name.Some?
    && GenId(n) in s.members
    && s.members[GenId(n)] == NewMember(tenant, team, ms[n - s0.serial], now)
  }

  /** What a run over `steps` that did not fail added to `s0` to reach `s`:
      the counter moved once per missed user, the row at each new id is
      built from the corresponding missed user's fields, and no other row
      is new. */
  ghost predicate Inserted(s0: State, s: State, index: map<string, Id>, tenant: Id, team: Id, now: Time, steps: seq<Step>) {
    var ms := Misses(index, steps);
    && s.serial == s0.serial + |ms|
    && (forall n: nat :: s0.serial <= n < s.serial ==> InsertedAt(s0, s, tenant, team, now, ms, n))
    && (forall k :: k in s.members && k !in s0.members ==> k in IdRange(s0.serial, s.serial))
  }

  /** Every existing member no user of `steps` was matched to has the same
      row in `s` as in `s0`. */
  ghost predicate UnhitKept(s0: State, s: State, index: map<string, Id>, steps: seq<Step>) {
    forall k :: k in s0.members && !HitBy(index, steps, k) ==> k in s.members && s.members[k] == s0.members[k]
  }

  lemma HitsExtend(index: map<string, Id>, p: seq<Step>, step: Step)
    ensures forall k :: HitBy(index, p, k) ==> HitBy(index, p + [step], k)
    ensures step.Apply? && Lookup(index, step.candidate.externalId).Some? ==>
      HitBy(index, p + [step], Lookup(index, step.candidate.externalId).value)
  {
    var q := p + [step];
    forall k | HitBy(index, p, k) ensures HitBy(index, q, k) {
      var i :| 0 <= i < |p| && p[i].Apply? && Lookup(index, p[i].candidate.externalId) == Some(k);
      assert q[i] == p[i];
    }
    assert q[|p|] == step;
  }

  /** A user matched to an existing member adds nothing. */
  lemma UpdateInserts(s0: State, s: State, index: map<string, Id>, tenant: Id, team: Id, now: Time, p: seq<Step>, c: Candidate, h: Id)
    requires FreshIds(s0) && h in s0.members
    requires Inserted(s0, s, index, tenant, team, now, p)
    requires Lookup(index, c.externalId) == Some(h)
    requires UpdateMember(s, h, c.name, c.email, c.phone, now).Success?
    ensures Inserted(s0, UpdateMember(s, h, c.name, c.email, c.phone, now).value, index, tenant, team, now, p + [Apply(c)])
  {
    var q := p + [Apply(c)];
    assert q[..|q| - 1] == p && q[|q| - 1] == Apply(c);
    var ms := Misses(index, p);
    assert Misses(index, q) == ms;
    var s' := UpdateMember(s, h, c.name, c.email, c.phone, now).value;
    assert s'.members == s.members[h := s'.members[h]] && s'.serial == s.serial;
    forall n: nat | s0.serial <= n < s'.serial
      ensures InsertedAt(s0, s', tenant, team, now, ms, n)
    {
      assert GenId(n) !in s0.members;
      assert InsertedAt(s0, s, tenant, team, now, ms, n);
    }
  }

  /** A user the index does not know adds its own row at the next id. */
  lemma CreateInserts(s0: State, s: State, index: map<string, Id>, tenant: Id, team: Id, now: Time, p: seq<Step>, c: Candidate)
    requires FreshIds(s)
    requires Inserted(s0, s, index, tenant, team, now, p)
    requires Lookup(index, c.externalId).None? && c.name.Some?
    requires CreateMember(s, NewMember(tenant, team, c, now)).Success?
    ensures Inserted(s0, CreateMember(s, NewMember(tenant, team, c, now)).value, index, tenant, team, now, p + [Apply(c)])
  {
    var q := p + [Apply(c)];
    assert q[..|q| - 1] == p && q[|q| - 1] == Apply(c);
    var ms := Misses(index, p);
    var ms' := Misses(index, q);
    assert ms' == ms + [c];
    var m := NewMember(tenant, team, c, now);
    var id := GenId(s.serial);
    var s' := CreateMember(s, m).value;
    assert s'.members == s.members[id := m] && s'.serial == s.serial + 1;
    forall n: nat | s0.serial <= n < s'.serial
      ensures InsertedAt(s0, s', tenant, team, now, ms', n)
    {
      if n < s.serial {
        GenIdInjective(n, s.serial);
        assert InsertedAt(s0, s, tenant, team, now, ms, n);
        assert ms'[n - s0.serial] == ms[n - s0.serial];
      } else {
        assert ms'[n - s0.serial] == c;
      }
    }
    forall k | k in s'.members && k !in s0.members
      ensures k in IdRange(s0.serial, s'.serial)
    {
      if k != id {
        IdRangeMembers(s0.serial, s.serial, k);
        var n: nat :| s0.serial <= n < s.serial && k == GenId(n);
      }
    }
  }

  /** One more user that did not fail keeps the account of what was added. */
  lemma StepInserts(s0: State, s: State, index: map<string, Id>, tenant: Id, team: Id, now: Time, p: seq<Step>, step: Step)
    requires ReadyToRun(s0, index, tenant, team)
    requires Consistent(s)
    requires Inserted(s0, s, index, tenant, team, now, p)
    requires ApplyStep(s, index, tenant, team, now, step).Success?
    ensures Inserted(s0, ApplyStep(s, index, tenant, team, now, step).value, index, tenant, team, now, p + [step])
  {
    if step.Skip? {
      var q := p + [step];
      assert q[..|q| - 1] == p && q[|q| - 1] == step;
      assert Misses(index, q) == Misses(index, p);
      assert ApplyStep(s, index, tenant, team, now, step).value == s;
    } else if step.Apply? {
      var c := step.candidate;
      var hit := Lookup(index, c.externalId);
      if hit.Some? {
        UpdateInserts(s0, s, index, tenant, team, now, p, c, hit.value);
      } else {
        CreateInserts(s0, s, index, tenant, team, now, p, c);
      }
    }
  }

  /** One more user that did not fail leaves every member no user was
      matched to as it was: an update writes only the matched row and an
      insert only a fresh id. */
  lemma StepKeepsUnhit(s0: State, s: State, index: map<string, Id>, tenant: Id, team: Id, now: Time, p: seq<Step>, step: Step)
    requires FreshIds(s) && s0.members.Keys <= s.members.Keys
    requires UnhitKept(s0, s, index, p)
    requires ApplyStep(s, index, tenant, team, now, step).Success?
    ensures UnhitKept(s0, ApplyStep(s, index, tenant, team, now, step).value, index, p + [step])
  {
    var q := p + [step];
    var s' := ApplyStep(s, index, tenant, team, now, step).value;
    HitsExtend(index, p, step);
    if step.Apply? {
      var c := step.candidate;
      var hit := Lookup(index, c.externalId);
      if hit.Some? {
        assert s'.members == s.members[hit.value := s'.members[hit.value]];
      } else {
        GenIdFresh(s);
        assert s'.members == s.members[GenId(s.serial) := NewMember(tenant, team, c, now)];
      }
    }
    forall k | k in s0.members && !HitBy(index, q, k)
      ensures k in s'.members && s'.members[k] == s0.members[k]
    {
      assert !HitBy(index, p, k);
    }
  }

  /** A run that did not fail added exactly one member per missed user. */
  lemma {:induction false} ReconcileInserts(s0: State, index: map<string, Id>, tenant: Id, team: Id, now: Time, steps: seq<Step>)
    requires ReadyToRun(s0, index, tenant, team)
    requires Reconcile(s0, index, tenant, team, now, steps).failure.None?
    ensures Inserted(s0, Reconcile(s0, index, tenant, team, now, steps).state, index, tenant, team, now, steps)
    decreases |steps|
  {
    if steps != [] {
      ReconcileInserts(s0, index, tenant, team, now, steps[..|steps| - 1]);
      LastStepInserts(s0, index, tenant, team, now, steps);
    }
  }

  /** The last user of a run that did not fail extends the account of the
      users before it. */
  lemma LastStepInserts(s0: State, index: map<string, Id>, tenant: Id, team: Id, now: Time, steps: seq<Step>)
    requires ReadyToRun(s0, index, tenant, team) && steps != []
    requires Reconcile(s0, index, tenant, team, now, steps).failure.None?
    requires Inserted(s0, Reconcile(s0, index, tenant, team, now, steps[..|steps| - 1]).state, index, tenant, team, now, steps[..|steps| - 1])
    ensures Inserted(s0, Reconcile(s0, index, tenant, team, now, steps).state, index, tenant, team, now, steps)
  {
    var n := |steps| - 1;
    var p := steps[..n];
    ReconcileConsistent(s0, index, tenant, team, now, p);
    var r := Reconcile(s0, index, tenant, team, now, p);
    StepInserts(s0, r.state, index, tenant, team, now, p, steps[n]);
    assert p + [steps[n]] == steps;
  }

  /** Every state the loop reaches is consistent. */
  lemma ReconcileConsistent(s0: State, index: map<string, Id>, tenant: Id, team: Id, now: Time, steps: seq<Step>)
    requires ReadyToRun(s0, index, tenant, team)
    ensures Consistent(Reconcile(s0, index, tenant, team, now, steps).state)
  {
    ReconcileKeeps(s0, index, tenant, team, now, steps);
  }

  /** A run that did not fail left every member no user was matched to as
      it was. */
  lemma {:induction false} ReconcileKeepsUnhit(s0: State, index: map<string, Id>, tenant: Id, team: Id, now: Time, steps: seq<Step>)
    requires ReadyToRun(s0, index, tenant, team)
    requires Reconcile(s0, index, tenant, team, now, steps).failure.None?
    ensures UnhitKept(s0, Reconcile(s0, index, tenant, team, now, steps).state, index, steps)
    decreases |steps|
  {
    if steps != [] {
      var n := |steps| - 1;
      var p := steps[..n];
      ReconcileKeepsUnhit(s0, index, tenant, team, now, p);
      ReconcileKeeps(s0, index, tenant, team, now, p);
      var r := Reconcile(s0, index, tenant, team, now, p);
      StepKeepsUnhit(s0, r.state, index, tenant, team, now, p, steps[n]);
      assert p + [steps[n]] == steps;
    }
  }

  /** Every run, failed or not, ends where the users it processed without
      error left it. */
  lemma ProcessedPrefix(s0: State, index: map<string, Id>, tenant: Id, team: Id, now: Time, steps: seq<Step>)
    returns (m: nat)
    ensures m <= |steps|
    ensures Reconcile(s0, index, tenant, team, now, steps[..m]).failure.None?
    ensures Reconcile(s0, index, tenant, team, now, steps[..m]).state == Reconcile(s0, index, tenant, team, now, steps).state
    ensures Reconcile(s0, index, tenant, team, now, steps).failure.None? ==> m == |steps|
  {
    if Reconcile(s0, index, tenant, team, now, steps).failure.None? {
      m := |steps|;
      assert steps[..m] == steps;
    } else {
      FailureStopsAtOneUser(s0, index, tenant, team, now, steps);
      var k :| FailedAt(s0, index, tenant, team, now, steps, k);
      m := k;
    }
  }

  /** Each missed user is a user of the loop. */
  lemma {:induction false} MissIsAUser(index: map<string, Id>, steps: seq<Step>, j: int)
    requires 0 <= j < |Misses(index, steps)|
    ensures exists i :: 0 <= i < |steps| && steps[i] == Apply(Misses(index, steps)[j])
    ensures Lookup(index, Misses(index, steps)[j].externalId).None?
    decreases |steps|
  {
    var n := |steps| - 1;
    var p := steps[..n];
    if j < |Misses(index, p)| {
      MissIsAUser(index, p, j);
      var i :| 0 <= i < |p| && p[i] == Apply(Misses(index, p)[j]);
      assert steps[i] == p[i];
    } else {
      assert steps[n] == Apply(Misses(index, steps)[j]);
    }
  }

  /** The rows an account of additions names are the new rows. */
  lemma AddedKeys(s0: State, s: State, index: map<string, Id>, tenant: Id, team: Id, now: Time, steps: seq<Step>)
    requires FreshIds(s0) && Inserted(s0, s, index, tenant, team, now, steps)
    requires s0.members.Keys <= s.members.Keys
    ensures s.members.Keys == s0.members.Keys + IdRange(s0.serial, s0.serial + |Misses(index, steps)|)
    ensures s0.members.Keys !! IdRange(s0.serial, s0.serial + |Misses(index, steps)|)
  {
    var added := IdRange(s0.serial, s.serial);
    forall k | k in added ensures k in s.members && k !in s0.members {
      IdRangeMembers(s0.serial, s.serial, k);
      var n: nat :| s0.serial <= n < s.serial && k == GenId(n);
      InsertedRow(s0, s, index, tenant, team, now, steps, n);
    }
    assert s.members.Keys == s0.members.Keys + added;
  }

  /** One row an account of additions names. */
  lemma InsertedRow(s0: State, s: State, index: map<string, Id>, tenant: Id, team: Id, now: Time, steps: seq<Step>, n: nat)
    requires FreshIds(s0) && Inserted(s0, s, index, tenant, team, now, steps)
    requires s0.serial <= n < s.serial
    ensures Misses(index, steps)[n - s0.serial].name.Some?
    ensures GenId(n) in s.members && GenId(n) !in s0.members
    ensures s.members[GenId(n)] == NewMember(tenant, team, Misses(index, steps)[n - s0.serial], now)
  {
    assert InsertedAt(s0, s, tenant, team, now, Misses(index, steps), n);
  }

  /** A run that did not fail adds one member per user whose external id the
      index did not know, so a miss never adds two rows and a hit none: the
      members are the old ones plus the ids the generator handed out during
      the run, one per miss (`IdRangeSize`), none of them an old id. */
  lemma ReconcileAddsOnePerMiss(s0: State, index: map<string, Id>, tenant: Id, team: Id, now: Time, steps: seq<Step>)
    requires ReadyToRun(s0, index, tenant, team)
    requires Reconcile(s0, index, tenant, team, now, steps).failure.None?
    ensures var s := Reconcile(s0, index, tenant, team, now, steps).state;
      var added := IdRange(s0.serial, s0.serial + |Misses(index, steps)|);
      && s.members.Keys == s0.members.Keys + added
      && s0.members.Keys !! added
  {
    var s := Reconcile(s0, index, tenant, team, now, steps).state;
    ReconcileInserts(s0, index, tenant, team, now, steps);
    ReconcileKeeps(s0, index, tenant, team, now, steps);
    assert s0.members.Keys <= s.members.Keys;
    AddedKeys(s0, s, index, tenant, team, now, steps);
  }

  /** The j-th user whose external id the index did not know becomes the row
      at the j-th next generated id, with that user's external id, name,
      e-mail and phone and the sync defaults. */
  lemma ReconcileAddsFromUsers(s0: State, index: map<string, Id>, tenant: Id, team: Id, now: Time, steps: seq<Step>, j: int)
    requires ReadyToRun(s0, index, tenant, team)
    requires Reconcile(s0, index, tenant, team, now, steps).failure.None?
    requires 0 <= j < |Misses(index, steps)|
    ensures var s := Reconcile(s0, index, tenant, team, now, steps).state;
      var c := Misses(index, steps)[j];
      && c.name.Some?
      && GenId(s0.serial + j) in s.members && GenId(s0.serial + j) !in s0.members
      && s.members[GenId(s0.serial + j)] == NewMember(tenant, team, c, now)
  {
    var s := Reconcile(s0, index, tenant, team, now, steps).state;
    ReconcileInserts(s0, index, tenant, team, now, steps);
    InsertedRow(s0, s, index, tenant, team, now, steps, s0.serial + j);
  }

  /** An existing member that no user of the run was matched to keeps its
      row exactly, whether the run completes or not. */
  lemma UnmatchedMembersUntouched(s0: State, index: map<string, Id>, tenant: Id, team: Id, now: Time, steps: seq<Step>, k: Id)
    requires ReadyToRun(s0, index, tenant, team) && k in s0.members
    requires !HitBy(index, steps, k)
    ensures var s := Reconcile(s0, index, tenant, team, now, steps).state;
      k in s.members && s.members[k] == s0.members[k]
  {
    var m := ProcessedPrefix(s0, index, tenant, team, now, steps);
    var p := steps[..m];
    ReconcileKeepsUnhit(s0, index, tenant, team, now, p);
  }

  // ---------------------------------------------------------------------
  // What the loop updates
  // ---------------------------------------------------------------------

  /** A step that is not matched to member `k` leaves its row as it was:
      an update writes another row and an insert a fresh id. */
  lemma StepKeepsRow(t: State, index: map<string, Id>, tenant: Id, team: Id, now: Time, step: Step, k: Id)
    requires FreshIds(t) && k in t.members
    requires !(step.Apply? && Lookup(index, step.candidate.externalId) == Some(k))
    ensures var t' := After(t, ApplyStep(t, index, tenant, team, now, step));
      k in t'.members && t'.members[k] == t.members[k]
  {
    if step.Apply? && Lookup(index, step.candidate.externalId).None? {
      GenIdFresh(t);
    }
  }

  /** Users after the `i`-th that are not matched to `k` leave the row the
      `i`-th user's step left, whether the run completes or not. */
  lemma {:induction false} LaterStepsKeepRow(s0: State, index: map<string, Id>, tenant: Id, team: Id, now: Time, steps: seq<Step>, i: nat, j: nat, k: Id)
    requires ReadyToRun(s0, index, tenant, team)
    requires i < j <= |steps|
    requires k in Reconcile(s0, index, tenant, team, now, steps[..i + 1]).state.members
    requires forall l :: i < l < |steps| && steps[l].Apply? ==> Lookup(index, steps[l].candidate.externalId) != Some(k)
    ensures var t := Reconcile(s0, index, tenant, team, now, steps[..j]).state;
      && k in t.members
      && t.members[k] == Reconcile(s0, index, tenant, team, now, steps[..i + 1]).state.members[k]
    decreases j
  {
    if j > i + 1 {
      LaterStepsKeepRow(s0, index, tenant, team, now, steps, i, j - 1, k);
      NextStepKeepsRow(s0, index, tenant, team, now, steps, j, k);
    }
  }

  /** The `j`-th user, not matched to `k`, keeps the row of `k`. */
  lemma NextStepKeepsRow(s0: State, index: map<string, Id>, tenant: Id, team: Id, now: Time, steps: seq<Step>, j: nat, k: Id)
    requires ReadyToRun(s0, index, tenant, team)
    requires 0 < j <= |steps|
    requires k in Reconcile(s0, index, tenant, team, now, steps[..j - 1]).state.members
    requires !(steps[j - 1].Apply? && Lookup(index, steps[j - 1].candidate.externalId) == Some(k))
    ensures var t := Reconcile(s0, index, tenant, team, now, steps[..j]).state;
      && k in t.members
      && t.members[k] == Reconcile(s0, index, tenant, team, now, steps[..j - 1]).state.members[k]
  {
    var p := steps[..j - 1];
    assert steps[..j][..j - 1] == p && steps[..j][j - 1] == steps[j - 1];
    ReconcileConsistent(s0, index, tenant, team, now, p);
    var r := Reconcile(s0, index, tenant, team, now, p);
    if r.failure.None? {
      StepKeepsRow(r.state, index, tenant, team, now, steps[j - 1], k);
    }
  }

  /** A user matched to member `k` whose write succeeded sets the member's
      e-mail, its name when the user has one and its phone when the user has
      one, and stamps `updatedAt`; an undefined name or phone keeps the value
      the row had before that user. Unless a later user is matched to `k`
      as well, the run ends with that row, whether it completes or not. */
  lemma ReconcileRefreshesHits(s0: State, index: map<string, Id>, tenant: Id, team: Id, now: Time, steps: seq<Step>, i: nat, k: Id)
    requires ReadyToRun(s0, index, tenant, team)
    requires i < |steps| && steps[i].Apply? && Lookup(index, steps[i].candidate.externalId) == Some(k)
    requires Reconcile(s0, index, tenant, team, now, steps[..i + 1]).failure.None?
    requires forall l :: i < l < |steps| && steps[l].Apply? ==> Lookup(index, steps[l].candidate.externalId) != Some(k)
    ensures var before := Reconcile(s0, index, tenant, team, now, steps[..i]).state;
      var s := Reconcile(s0, index, tenant, team, now, steps).state;
      var c := steps[i].candidate;
      && k in before.members && k in s.members
      && s.members[k].email == c.email
      && s.members[k].name == (if c.name.Some? then c.name.value else before.members[k].name)
      && s.members[k].phone == (if c.phone.Some? then c.phone else before.members[k].phone)
      && s.members[k].updatedAt == now
      && KeepsLocalFields(s.members[k], before.members[k])
  {
    var q := steps[..i + 1];
    assert q[..i] == steps[..i] && q[i] == steps[i];
    LaterStepsKeepRow(s0, index, tenant, team, now, steps, i, |steps|, k);
    assert steps[..|steps|] == steps;
  }

  // ---------------------------------------------------------------------
  // The loop itself
  // ---------------------------------------------------------------------

  /** `for (const user of users) { ... }` over the mapped users. */
  method ProcessUsers(db: Database, index: map<string, Id>, tenant: Id, team: Id, now: Time, steps: seq<Step>)
    returns (failure: Option<Error>)
    modifies db
    ensures Run(db.Snapshot(), failure) == Reconcile(old(db.Snapshot()), index, tenant, team, now, steps)
  {
    ghost var s0 := db.Snapshot();
    failure := None;
    var i := 0;
    while i < |steps|
      invariant 0 <= i <= |steps|
      invariant failure.None?
      invariant Reconcile(s0, index, tenant, team, now, steps[..i]) == Run(db.Snapshot(), None)
      decreases |steps| - i
    {
      assert steps[..i + 1][..i] == steps[..i];
      assert steps[..i + 1][i] == steps[i];
      ghost var before := db.Snapshot();
      ghost var w := ApplyStep(before, index, tenant, team, now, steps[i]);
      match steps[i] {
        case Skip =>
        case Throw(e) =>
          failure := Some(e);
        case Apply(c) =>
          var hit := Lookup(index, c.externalId);
          if hit.Some? {
            failure := db.MemberUpdate(hit.value, c.name, c.email, c.phone, now);
          } else if c.name.None? {
            failure := Some(MissingName);
          } else {
            failure := db.MemberCreate(NewMember(tenant, team, c, now));
          }
      }
      assert db.Snapshot() == After(before, w) && failure == ErrorOf(w);
      assert Reconcile(s0, index, tenant, team, now, steps[..i + 1]) == Run(db.Snapshot(), failure);
      if failure.Some? {
        FailureIsFinal(s0, index, tenant, team, now, steps, i + 1, |steps|);
        assert steps[..|steps|] == steps;
        return;
      }
      i := i + 1;
    }
    assert steps[..i] == steps;
  }
}
