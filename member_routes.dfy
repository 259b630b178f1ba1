/** The member collection route: `POST` validates the body, checks the team
    and the e-mail address, creates the member and assigns it the requested
    badges that exist; `GET` lists every member with its team's name and its
    badges' names. */
module MemberRoutes {
  import opened Js
  import opened Ids
  import opened Store
  import opened Validation
  import opened Http

  /** A member as the routes answer with it. */
  datatype MemberView = MemberView(
    id: Id,
    name: string,
    email: string,
    role: string,
    teamId: Id,
    teamName: string,
    isOnCall: bool,
    badges: seq<string>,
    skills: seq<string>,
    phone: Option<string>,
    joinedAt: Time)

  /** `phone || undefined`: an empty phone is reported as absent as well. */
  function ReportedPhone(phone: Option<string>): (r: Option<string>)
    ensures r.Some? <==> phone.Some? && phone.value != ""
    ensures r.Some? ==> r == phone
  {
    if Truthy(phone) then phone else None
  }

  /** The ids of the badges assigned to a member. */
  function BadgesOf(s: State, member: Id): set<Id> {
    set p | p in s.memberBadges && p.0 == member :: p.1
  }

  function BadgeNames(s: State, ids: seq<Id>): (r: seq<string>)
    requires forall i :: 0 <= i < |ids| ==> ids[i] in s.badges
    ensures |r| == |ids|
  {
    seq(|ids|, i requires 0 <= i < |ids| => s.badges[ids[i]].name)
  }

  /** The record of one member; `badgeIds` are its badges in the database's order. */
  function View(s: State, id: Id, badgeIds: seq<Id>): MemberView
    requires id in s.members && s.members[id].teamId in s.teams
    requires forall i :: 0 <= i < |badgeIds| ==> badgeIds[i] in s.badges
  {
    var m := s.members[id];
    MemberView(id, m.name, m.email, m.role, m.teamId, s.teams[m.teamId].name, m.isOnCall,
      BadgeNames(s, badgeIds), m.skills, ReportedPhone(m.phone), m.joinedAt)
  }

  /** A record names exactly the badges it is given, when those are the
      member's badges listed once each. */
  lemma ViewBadges(s: State, id: Id, badgeIds: seq<Id>)
    requires id in s.members && s.members[id].teamId in s.teams
    requires forall b :: b in BadgesOf(s, id) ==> b in s.badges
    requires Enumerates(badgeIds, BadgesOf(s, id))
    ensures forall i :: 0 <= i < |badgeIds| ==> badgeIds[i] in s.badges
    ensures forall n :: n in View(s, id, badgeIds).badges <==> exists b :: b in BadgesOf(s, id) && s.badges[b].name == n
  {
    var v := View(s, id, badgeIds);
    forall n ensures n in v.badges <==> exists b :: b in BadgesOf(s, id) && s.badges[b].name == n {
      if n in v.badges {
        var j :| 0 <= j < |v.badges| && v.badges[j] == n;
        assert badgeIds[j] in BadgesOf(s, id) && s.badges[badgeIds[j]].name == n;
      }
      if exists b :: b in BadgesOf(s, id) && s.badges[b].name == n {
        var b :| b in BadgesOf(s, id) && s.badges[b].name == n;
        var j :| 0 <= j < |badgeIds| && badgeIds[j] == b;
        assert v.badges[j] == n;
      }
    }
  }

  /** Every badge assigned to a member exists. */
  lemma BadgesOfExist(s: State, id: Id)
    requires ForeignKeys(s)
    ensures forall b :: b in BadgesOf(s, id) ==> b in s.badges
  {
    forall b | b in BadgesOf(s, id) ensures b in s.badges {
      assert (id, b) in s.memberBadges;
    }
  }

  // ---------------------------------------------------------------------
  // GET /api/members
  // ---------------------------------------------------------------------

  /** The members the database listed, each with its badges in the
      database's order. */
  function ListMembers(s: State, ids: seq<Id>, badgeLists: seq<seq<Id>>): (r: seq<MemberView>)
    requires |badgeLists| == |ids|
    requires forall i :: 0 <= i < |ids| ==> ids[i] in s.members && s.members[ids[i]].teamId in s.teams
    requires forall i, j :: 0 <= i < |ids| && 0 <= j < |badgeLists[i]| ==> badgeLists[i][j] in s.badges
  {
    seq(|ids|, i requires 0 <= i < |ids| => View(s, ids[i], badgeLists[i]))
  }

  /** What the database lists can be rendered: every listed member has
      its team and every listed badge exists. */
  lemma ListMembersDefined(s: State, ids: seq<Id>, badgeLists: seq<seq<Id>>)
    requires ForeignKeys(s)
    requires Enumerates(ids, s.members.Keys)
    requires |badgeLists| == |ids|
    requires forall i :: 0 <= i < |ids| ==> Enumerates(badgeLists[i], BadgesOf(s, ids[i]))
    ensures forall i :: 0 <= i < |ids| ==> s.members[ids[i]].teamId in s.teams
    ensures forall i, j :: 0 <= i < |ids| && 0 <= j < |badgeLists[i]| ==> badgeLists[i][j] in s.badges
  {
    forall i, j | 0 <= i < |ids| && 0 <= j < |badgeLists[i]| ensures badgeLists[i][j] in s.badges {
      assert badgeLists[i][j] in BadgesOf(s, ids[i]);
      assert (ids[i], badgeLists[i][j]) in s.memberBadges;
    }
  }

  /** The listing has one record per member, each the member's own. */
  lemma ListMembersContract(s: State, ids: seq<Id>, badgeLists: seq<seq<Id>>)
    requires Enumerates(ids, s.members.Keys)
    requires |badgeLists| == |ids|
    requires forall i :: 0 <= i < |ids| ==> s.members[ids[i]].teamId in s.teams
    requires forall i, j :: 0 <= i < |ids| && 0 <= j < |badgeLists[i]| ==> badgeLists[i][j] in s.badges
    ensures |ListMembers(s, ids, badgeLists)| == |s.members|
    ensures forall i :: 0 <= i < |ids| ==> ListMembers(s, ids, badgeLists)[i] == View(s, ids[i], badgeLists[i])
    ensures forall k :: k in s.members <==> exists i :: 0 <= i < |ids| && ListMembers(s, ids, badgeLists)[i].id == k
  {
    EnumeratesSize(ids, s.members.Keys);
    var r := ListMembers(s, ids, badgeLists);
    assert |r| == |ids|;
    assert forall i :: 0 <= i < |ids| ==> r[i].id == ids[i];
    ListedIds(s.members.Keys, ids, r);
  }

  /** Records whose ids are an enumeration of `keys` have exactly those ids. */
  lemma ListedIds(keys: set<Id>, ids: seq<Id>, r: seq<MemberView>)
    requires Enumerates(ids, keys)
    requires |r| == |ids| && forall i :: 0 <= i < |ids| ==> r[i].id == ids[i]
    ensures forall k :: k in keys <==> exists i :: 0 <= i < |ids| && r[i].id == k
  {
    forall k | k in keys ensures exists i :: 0 <= i < |ids| && r[i].id == k {
      var i :| 0 <= i < |ids| && ids[i] == k;
      assert r[i].id == k;
    }
  }

  /** Each listed member carries the names of exactly its assigned badges. */
  lemma ListMembersBadges(s: State, ids: seq<Id>, badgeLists: seq<seq<Id>>, i: int)
    requires ForeignKeys(s)
    requires Enumerates(ids, s.members.Keys)
    requires |badgeLists| == |ids|
    requires forall i :: 0 <= i < |ids| ==> Enumerates(badgeLists[i], BadgesOf(s, ids[i]))
    requires forall i :: 0 <= i < |ids| ==> s.members[ids[i]].teamId in s.teams
    requires forall i, j :: 0 <= i < |ids| && 0 <= j < |badgeLists[i]| ==> badgeLists[i][j] in s.badges
    requires 0 <= i < |ids|
    ensures forall n :: n in ListMembers(s, ids, badgeLists)[i].badges <==>
      exists b :: b in BadgesOf(s, ids[i]) && s.badges[b].name == n
  {
    BadgesOfExist(s, ids[i]);
    ViewBadges(s, ids[i], badgeLists[i]);
  }

  method GetMembersOn(db: Database) returns (resp: Response<seq<MemberView>>, ids: seq<Id>, badgeLists: seq<seq<Id>>)
    requires db.Valid()
    ensures Enumerates(ids, db.members.Keys)
    ensures |badgeLists| == |ids|
    ensures forall i :: 0 <= i < |ids| ==> Enumerates(badgeLists[i], BadgesOf(db.Snapshot(), ids[i]))
    ensures forall i :: 0 <= i < |ids| ==> ids[i] in db.members && db.members[ids[i]].teamId in db.teams
    ensures forall i, j :: 0 <= i < |ids| && 0 <= j < |badgeLists[i]| ==> badgeLists[i][j] in db.badges
    ensures resp == Ok(ListMembers(db.Snapshot(), ids, badgeLists))
  {
    ids := ListKeys(db.members.Keys);
    badgeLists := [];
    while |badgeLists| < |ids|
      invariant |badgeLists| <= |ids|
      invariant forall i :: 0 <= i < |badgeLists| ==> Enumerates(badgeLists[i], BadgesOf(db.Snapshot(), ids[i]))
    {
      var own := ListKeys(BadgesOf(db.Snapshot(), ids[|badgeLists|]));
      badgeLists := badgeLists + [own];
    }
    ListMembersDefined(db.Snapshot(), ids, badgeLists);
    resp := Ok(ListMembers(db.Snapshot(), ids, badgeLists));
  }

  // ---------------------------------------------------------------------
  // POST /api/members
  // ---------------------------------------------------------------------

  /** The body's fields, as the route destructures them. */
  datatype MemberData = MemberData(
    name: string,
    email: string,
    role: string,
    teamId: Id,
    isOnCall: bool,
    phone: Option<string>,
    skills: seq<string>,
    badges: seq<string>)

  /** Reads the fields; `isOnCall || false` and `skills || []` make an
      absent flag false and absent lists empty. */
  function MemberDataOf(data: Body): MemberData {
    MemberData(TextOf(data, "name"), TextOf(data, "email"), TextOf(data, "role"), TextOf(data, "teamId"),
      FlagOf(data, "isOnCall"), OptTextOf(data, "phone"), TextsOf(data, "skills"), TextsOf(data, "badges"))
  }

  /** The schema's output carries the body's own fields: its defaults are
      the values the route reads for missing fields anyway. */
  lemma SameData(body: Body, isEmail: string -> bool, data: Body)
    requires MemberBodyOk(body, isEmail)
    requires forall k :: Lookup(data, k) == MemberOutputAt(body, k)
    ensures MemberDataOf(data) == MemberDataOf(body)
  {
    assert Lookup(data, "name") == MemberOutputAt(body, "name");
    assert Lookup(data, "email") == MemberOutputAt(body, "email");
    assert Lookup(data, "role") == MemberOutputAt(body, "role");
    assert Lookup(data, "teamId") == MemberOutputAt(body, "teamId");
    assert Lookup(data, "isOnCall") == MemberOutputAt(body, "isOnCall");
    assert Lookup(data, "phone") == MemberOutputAt(body, "phone");
    assert Lookup(data, "skills") == MemberOutputAt(body, "skills");
    assert Lookup(data, "badges") == MemberOutputAt(body, "badges");
  }

  /** `validateRequest(req, memberCreateSchema)` and the destructuring that
      follows: the fields of an accepted body, nothing for a rejected one. */
  function ParseMember(body: Body, isEmail: string -> bool): (r: Option<MemberData>)
    ensures r.Some? <==> MemberBodyOk(body, isEmail)
    ensures r.Some? ==> r.value == MemberDataOf(body)
  {
    MemberCreateContract(body, isEmail);
    match ParseObject(MemberCreateSchema, body, isEmail)
    case None => None
    case Some(data) =>
      SameData(body, isEmail, data);
      Some(MemberDataOf(data))
  }

  /** The row the route inserts: no tenant, no external id. */
  function NewMember(d: MemberData, now: Time): Member {
    Member(None, None, d.name, d.email, d.role, d.teamId, d.isOnCall, d.phone, d.skills, now, now)
  }

  /** The ids of the existing badges whose name was requested. */
  function Named(badges: map<Id, Badge>, names: seq<string>): set<Id> {
    set b | b in badges && badges[b].name in names
  }

  /** Assigns the requested badges that exist; unknown names are skipped. */
  function AssignRequested(s: State, member: Id, names: seq<string>): State {
    if |names| > 0 && Named(s.badges, names) != {} then
      AddMemberBadges(s, set b | b in Named(s.badges, names) :: (member, b))
    else s
  }

  function NotFound<T>(teamId: Id): Response<T> {
    ErrorWith(404, "NOT_FOUND", "Team with ID " + teamId + " not found")
  }

  function DuplicateEmail<T>(): Response<T> {
    ErrorWith(400, "DUPLICATE_EMAIL", "Email is already in use")
  }

  function CreateFailed<T>(): Response<T> {
    Err(500, None, Some("Failed to create member"))
  }

  /** The route after validation: team check, e-mail check, insert, badge
      assignment, and the created member's record. */
  function CreateChecked(s: State, d: MemberData, now: Time, order: seq<Id>): (State, Response<MemberView>)
    requires forall i :: 0 <= i < |order| ==> order[i] in s.badges
  {
    if d.teamId !in s.teams then (s, NotFound(d.teamId))
    else if EmailTaken(s.members, d.email, None) then (s, DuplicateEmail())
    else
      var created := CreateMember(s, NewMember(d, now));
      if created.Failure? then (s, CreateFailed())
      else
        var withBadges := AssignRequested(created.value, GenId(s.serial), d.badges);
        (withBadges, Ok(View(withBadges, GenId(s.serial), order)))
  }

  /** `POST /api/members`; `order` is the order in which the database lists
      the new member's badges. */
  function PostMember(s: State, body: Body, isEmail: string -> bool, now: Time, order: seq<Id>): (State, Response<MemberView>)
    requires forall i :: 0 <= i < |order| ==> order[i] in s.badges
  {
    match ParseMember(body, isEmail)
    case None => (s, ValidationError())
    case Some(d) => CreateChecked(s, d, now, order)
  }

  /** After validation: 404 NOT_FOUND for an unknown team, then 400
      DUPLICATE_EMAIL for an e-mail address in use, and otherwise the new
      member; the insert's 500 cannot happen. Every error leaves the
      database as it was. */
  lemma CreateCheckedAnswers(s: State, d: MemberData, now: Time, order: seq<Id>)
    requires forall i :: 0 <= i < |order| ==> order[i] in s.badges
    ensures CreateChecked(s, d, now, order).1 == NotFound(d.teamId) <==> d.teamId !in s.teams
    ensures CreateChecked(s, d, now, order).1 == DuplicateEmail() <==>
      d.teamId in s.teams && EmailTaken(s.members, d.email, None)
    ensures CreateChecked(s, d, now, order).1.Ok? <==>
      d.teamId in s.teams && !EmailTaken(s.members, d.email, None)
    ensures CreateChecked(s, d, now, order).1.Status() != 500
    ensures CreateChecked(s, d, now, order).1.Err? ==> CreateChecked(s, d, now, order).0 == s
  {
  }

  /** Which answer the route gives: 400 VALIDATION_ERROR exactly for a body
      the schema rejects, and otherwise the answer for the body's fields. */
  lemma PostMemberAnswers(s: State, body: Body, isEmail: string -> bool, now: Time, order: seq<Id>)
    requires forall i :: 0 <= i < |order| ==> order[i] in s.badges
    ensures PostMember(s, body, isEmail, now, order).1 == ValidationError() <==> !MemberBodyOk(body, isEmail)
    ensures MemberBodyOk(body, isEmail) ==> PostMember(s, body, isEmail, now, order) == CreateChecked(s, MemberDataOf(body), now, order)
    ensures PostMember(s, body, isEmail, now, order).1.Status() != 500
    ensures PostMember(s, body, isEmail, now, order).1.Err? ==> PostMember(s, body, isEmail, now, order).0 == s
  {
    if MemberBodyOk(body, isEmail) {
      CreateCheckedAnswers(s, MemberDataOf(body), now, order);
    }
  }

  /** The created member has the body's fields with the defaults, no tenant
      and no external id, under the next generated id; it is assigned the
      existing badges whose name was requested; nothing else changes. */
  lemma CreateCheckedCreates(s: State, d: MemberData, now: Time, order: seq<Id>)
    requires forall i :: 0 <= i < |order| ==> order[i] in s.badges
    requires CreateChecked(s, d, now, order).1.Ok?
    ensures CreateChecked(s, d, now, order).0 ==
      s.(members := s.members[GenId(s.serial) := NewMember(d, now)],
         memberBadges := s.memberBadges + set b | b in Named(s.badges, d.badges) :: (GenId(s.serial), b),
         serial := s.serial + 1)
  {
    var pairs := set b | b in Named(s.badges, d.badges) :: (GenId(s.serial), b);
    if !(|d.badges| > 0 && Named(s.badges, d.badges) != {}) {
      assert pairs == {};
    }
  }

  /** After the route, the new member's badges are exactly the existing
      badges whose name was requested. */
  lemma CreateCheckedBadges(s: State, d: MemberData, now: Time, order: seq<Id>)
    requires FreshIds(s) && ForeignKeys(s)
    requires forall i :: 0 <= i < |order| ==> order[i] in s.badges
    requires CreateChecked(s, d, now, order).1.Ok?
    ensures forall b :: b in BadgesOf(CreateChecked(s, d, now, order).0, GenId(s.serial)) <==>
      b in s.badges && s.badges[b].name in d.badges
  {
    CreateCheckedCreates(s, d, now, order);
    GenIdFresh(s);
    var s2 := CreateChecked(s, d, now, order).0;
    forall b ensures b in BadgesOf(s2, GenId(s.serial)) <==> b in s.badges && s.badges[b].name in d.badges {
      if b in BadgesOf(s2, GenId(s.serial)) {
        var p :| p in s2.memberBadges && p.0 == GenId(s.serial) && p.1 == b;
        assert p.0 !in s.members;
        assert p !in s.memberBadges;
      }
      if b in s.badges && s.badges[b].name in d.badges {
        assert (GenId(s.serial), b) in s2.memberBadges;
      }
    }
  }

  /** The route keeps e-mail addresses unique and the database's own
      constraints. */
  lemma CreateCheckedKeepsConsistent(s: State, d: MemberData, now: Time, order: seq<Id>)
    requires Consistent(s)
    requires forall i :: 0 <= i < |order| ==> order[i] in s.badges
    ensures Consistent(CreateChecked(s, d, now, order).0)
  {
    if CreateChecked(s, d, now, order).1.Ok? {
      CreateCheckedCreates(s, d, now, order);
      var created := CreateMember(s, NewMember(d, now)).value;
      NewMemberKeepsConsistent(s, NewMember(d, now));
      AddMemberBadgesKeepsConsistent(created, set b | b in Named(s.badges, d.badges) :: (GenId(s.serial), b));
    }
  }

  lemma NewMemberKeepsConsistent(s: State, m: Member)
    requires Consistent(s) && m.teamId in s.teams && m.tenantId.None? && !EmailTaken(s.members, m.email, None)
    ensures Consistent(s.(members := s.members[GenId(s.serial) := m], serial := s.serial + 1))
  {
    GenIdFresh(s);
    LaterIdsDiffer(s.serial);
  }

  /** The answer describes the new member; listed as the database lists the
      member's badges, its badge names are exactly the requested names that
      name a badge. */
  lemma CreateCheckedResponse(s: State, d: MemberData, now: Time, order: seq<Id>)
    requires Consistent(s)
    requires forall i :: 0 <= i < |order| ==> order[i] in s.badges
    requires CreateChecked(s, d, now, order).1.Ok?
    ensures var v := CreateChecked(s, d, now, order).1.data;
      && v.id == GenId(s.serial) && v.name == d.name && v.email == d.email && v.role == d.role
      && v.teamId == d.teamId && v.teamName == s.teams[d.teamId].name
      && v.isOnCall == d.isOnCall && v.skills == d.skills && v.phone == ReportedPhone(d.phone) && v.joinedAt == now
    ensures Enumerates(order, BadgesOf(CreateChecked(s, d, now, order).0, GenId(s.serial))) ==>
      forall n :: n in CreateChecked(s, d, now, order).1.data.badges <==>
        n in d.badges && exists b :: b in s.badges && s.badges[b].name == n
  {
    CreateCheckedCreates(s, d, now, order);
    CreateCheckedBadges(s, d, now, order);
    var s2 := CreateChecked(s, d, now, order).0;
    var id := GenId(s.serial);
    if Enumerates(order, BadgesOf(s2, id)) {
      ViewBadges(s2, id, order);
      forall n ensures (exists b :: b in BadgesOf(s2, id) && s2.badges[b].name == n) <==>
        n in d.badges && exists b :: b in s.badges && s.badges[b].name == n
      {
        if n in d.badges && exists b :: b in s.badges && s.badges[b].name == n {
          var b :| b in s.badges && s.badges[b].name == n;
          assert b in BadgesOf(s2, id);
        }
      }
    }
  }

  /** The route as a whole keeps the database's constraints. */
  lemma PostMemberKeepsConsistent(s: State, body: Body, isEmail: string -> bool, now: Time, order: seq<Id>)
    requires Consistent(s)
    requires forall i :: 0 <= i < |order| ==> order[i] in s.badges
    ensures Consistent(PostMember(s, body, isEmail, now, order).0)
  {
    if MemberBodyOk(body, isEmail) {
      CreateCheckedKeepsConsistent(s, MemberDataOf(body), now, order);
    }
  }

  /** The badge step of the route: look up the requested names, then
      insert the assignments if any name matched. */
  method AssignRequestedOn(db: Database, member: Id, names: seq<string>)
    modifies db
    ensures db.Snapshot() == AssignRequested(old(db.Snapshot()), member, names)
  {
    if |names| > 0 {
      var existing := Named(db.badges, names);
      if existing != {} {
        db.MemberBadgesCreate(set b | b in existing :: (member, b));
      }
    }
  }

  /** The route after validation, on the database. */
  method CreateCheckedOn(db: Database, d: MemberData, now: Time) returns (resp: Response<MemberView>, order: seq<Id>)
    requires db.Valid()
    modifies db
    ensures forall i :: 0 <= i < |order| ==> order[i] in old(db.badges)
    ensures (db.Snapshot(), resp) == CreateChecked(old(db.Snapshot()), d, now, order)
    ensures resp.Ok? ==> Enumerates(order, BadgesOf(db.Snapshot(), resp.data.id))
  {
    order := [];
    if d.teamId !in db.teams {
      return NotFound(d.teamId), order;
    }
    if EmailTaken(db.members, d.email, None) {
      return DuplicateEmail(), order;
    }
    ghost var s0 := db.Snapshot();
    var id := GenId(db.serial);
    var failure := db.MemberCreate(NewMember(d, now));
    if failure.Some? {
      return CreateFailed(), order;
    }
    AssignRequestedOn(db, id, d.badges);
    assert db.Snapshot() == CreateChecked(s0, d, now, []).0;
    CreateCheckedBadges(s0, d, now, []);
    order := ListKeys(BadgesOf(db.Snapshot(), id));
    resp := Ok(View(db.Snapshot(), id, order));
  }

  method PostMemberOn(db: Database, body: Body, isEmail: string -> bool, now: Time)
    returns (resp: Response<MemberView>, order: seq<Id>)
    requires db.Valid()
    modifies db
    ensures forall i :: 0 <= i < |order| ==> order[i] in old(db.badges)
    ensures (db.Snapshot(), resp) == PostMember(old(db.Snapshot()), body, isEmail, now, order)
    ensures resp.Ok? ==> Enumerates(order, BadgesOf(db.Snapshot(), resp.data.id))
  {
    var parsed := ParseMember(body, isEmail);
    if parsed.None? {
      return ValidationError(), [];
    }
    resp, order := CreateCheckedOn(db, parsed.value, now);
  }
}
