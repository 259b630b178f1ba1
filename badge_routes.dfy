/** The badge collection route: `POST` validates the body, refuses a name
    already in use and creates the badge; `GET` lists every badge. */
module BadgeRoutes {
  import opened Js
  import opened Ids
  import opened Store
  import opened Validation
  import opened Http

  /** A badge as the routes answer with it. */
  datatype BadgeView = BadgeView(id: Id, name: string, description: string, color: string, createdAt: Time)

  function ViewOf(s: State, id: Id): BadgeView
    requires id in s.badges
  {
    var b := s.badges[id];
    BadgeView(id, b.name, b.description, b.color, b.createdAt)
  }

  // ---------------------------------------------------------------------
  // GET /api/badges
  // ---------------------------------------------------------------------

  /** The badges the database listed, in its order. */
  function ListBadges(s: State, ids: seq<Id>): seq<BadgeView>
    requires forall i :: 0 <= i < |ids| ==> ids[i] in s.badges
  {
    seq(|ids|, i requires 0 <= i < |ids| => ViewOf(s, ids[i]))
  }

  /** The listing holds every badge exactly once, each with its own fields. */
  lemma ListBadgesContract(s: State, ids: seq<Id>)
    requires Enumerates(ids, s.badges.Keys)
    ensures forall i :: 0 <= i < |ids| ==> ids[i] in s.badges
    ensures |ListBadges(s, ids)| == |s.badges|
    ensures forall i :: 0 <= i < |ids| ==>
      var v := ListBadges(s, ids)[i];
      v.id in s.badges && s.badges[v.id] == Badge(v.name, v.description, v.color, v.createdAt)
    ensures forall k :: k in s.badges <==> exists i :: 0 <= i < |ids| && ListBadges(s, ids)[i].id == k
    ensures forall i, j :: 0 <= i < j < |ids| ==> ListBadges(s, ids)[i].id != ListBadges(s, ids)[j].id
  {
    EnumeratesSize(ids, s.badges.Keys);
    var r := ListBadges(s, ids);
    forall k | k in s.badges ensures exists i :: 0 <= i < |ids| && r[i].id == k {
      var i :| 0 <= i < |ids| && ids[i] == k;
      assert r[i].id == k;
    }
  }

  method GetBadgesOn(db: Database) returns (resp: Response<seq<BadgeView>>, ids: seq<Id>)
    ensures Enumerates(ids, db.badges.Keys)
    ensures forall i :: 0 <= i < |ids| ==> ids[i] in db.badges
    ensures resp == Ok(ListBadges(db.Snapshot(), ids))
  {
    ids := ListKeys(db.badges.Keys);
    resp := Ok(ListBadges(db.Snapshot(), ids));
  }

  // ---------------------------------------------------------------------
  // POST /api/badges
  // ---------------------------------------------------------------------

  datatype BadgeData = BadgeData(name: string, description: string, color: string)

  function BadgeDataOf(data: Body): BadgeData {
    BadgeData(TextOf(data, "name"), TextOf(data, "description"), TextOf(data, "color"))
  }

  /** What the badge creation schema asks of a body: a name of 1 to 50
      characters, a description of at most 200, and a colour, when given, of
      the form `#rgb` or `#rrggbb`. */
  predicate BadgeBodyOk(body: Body) {
    && TextWithin(Lookup(body, "name"), 1, 50) && OptionalTextUpTo(Lookup(body, "description"), 200)
    && ("color" in body ==> body["color"].Text? && IsColor(body["color"].s))
  }

  /** The colour a body asks for, `#000000` when it names none. */
  function RequestedColor(body: Body): string {
    if "color" in body then TextOf(body, "color") else "#000000"
  }

  lemma SameBadgeData(body: Body, data: Body)
    requires forall k :: Lookup(data, k) == BadgeOutputAt(body, k)
    requires BadgeBodyOk(body)
    ensures BadgeDataOf(data) == BadgeData(TextOf(body, "name"), TextOf(body, "description"), RequestedColor(body))
  {
    assert Lookup(data, "name") == BadgeOutputAt(body, "name");
    assert Lookup(data, "description") == BadgeOutputAt(body, "description");
    assert Lookup(data, "color") == BadgeOutputAt(body, "color");
  }

  /** `validateRequest(req, badgeCreateSchema)` and the destructuring that
      follows. */
  function ParseBadge(body: Body): (r: Option<BadgeData>)
    ensures r.Some? <==> BadgeBodyOk(body)
    ensures r.Some? ==> r.value == BadgeData(TextOf(body, "name"), TextOf(body, "description"), RequestedColor(body))
  {
    BadgeCreateContract(body, NoEmailCheck);
    match ParseObject(BadgeCreateSchema, body, NoEmailCheck)
    case None => None
    case Some(data) =>
      SameBadgeData(body, data);
      Some(BadgeDataOf(data))
  }

  /** Whether some badge already has this name (`badge.findFirst({ where: { name } })`). */
  predicate NameTaken(badges: map<Id, Badge>, name: string) {
    exists k :: k in badges && badges[k].name == name
  }

  function DuplicateName<T>(): Response<T> {
    ErrorWith(400, "DUPLICATE_NAME", "Badge with this name already exists")
  }

  /** The row the route inserts: `description || ""` and `color || "#000000"`. */
  function NewBadge(d: BadgeData, now: Time): Badge {
    Badge(d.name, OrElse(d.description, ""), OrElse(d.color, "#000000"), now)
  }

  /** `POST /api/badges`. */
  function PostBadge(s: State, body: Body, now: Time): (State, Response<BadgeView>) {
    match ParseBadge(body)
    case None => (s, ValidationError())
    case Some(d) =>
      if NameTaken(s.badges, d.name) then (s, DuplicateName())
      else
        var s2 := CreateBadge(s, NewBadge(d, now));
        (s2, Ok(ViewOf(s2, GenId(s.serial))))
  }

  /** Which answer the route gives: 400 VALIDATION_ERROR exactly for a
      body the schema rejects, then 400 DUPLICATE_NAME exactly when the name
      is in use, and otherwise the new badge. Every error leaves the
      database as it was. */
  lemma PostBadgeAnswers(s: State, body: Body, now: Time)
    ensures PostBadge(s, body, now).1 == ValidationError() <==> !BadgeBodyOk(body)
    ensures PostBadge(s, body, now).1 == DuplicateName() <==> BadgeBodyOk(body) && NameTaken(s.badges, body["name"].s)
    ensures PostBadge(s, body, now).1.Ok? <==> BadgeBodyOk(body) && !NameTaken(s.badges, body["name"].s)
    ensures PostBadge(s, body, now).1.Status() != 500
    ensures PostBadge(s, body, now).1.Err? ==> PostBadge(s, body, now).0 == s
  {
  }

  /** The created badge has the body's name, its description or "", and
      the colour it asked for or `#000000`: a well-formed colour in either
      case, so the route's own `#000000` fallback never applies. It gets
      the next generated id, and the answer describes it. */
  lemma PostBadgeCreates(s: State, body: Body, now: Time)
    requires PostBadge(s, body, now).1.Ok?
    ensures PostBadge(s, body, now).0 ==
      CreateBadge(s, Badge(body["name"].s, TextOf(body, "description"), RequestedColor(body), now))
    ensures IsColor(RequestedColor(body))
    ensures PostBadge(s, body, now).1.data ==
      BadgeView(GenId(s.serial), body["name"].s, TextOf(body, "description"), RequestedColor(body), now)
  {
    DefaultColorIsColor();
    var d := ParseBadge(body).value;
    assert |d.color| > 0;
  }

  lemma DefaultColorIsColor()
    ensures IsColor("#000000")
  {
    assert IsHexChar('0');
  }

  /** The route keeps badge names unique and the database's constraints. */
  lemma PostBadgeKeepsInvariants(s: State, body: Body, now: Time)
    requires Consistent(s) && BadgeNamesUnique(s.badges)
    ensures Consistent(PostBadge(s, body, now).0)
    ensures BadgeNamesUnique(PostBadge(s, body, now).0.badges)
  {
    if PostBadge(s, body, now).1.Ok? {
      var d := ParseBadge(body).value;
      CreateBadgeKeepsConsistent(s, NewBadge(d, now));
      GenIdFresh(s);
    }
  }

  method PostBadgeOn(db: Database, body: Body, now: Time) returns (resp: Response<BadgeView>)
    modifies db
    ensures (db.Snapshot(), resp) == PostBadge(old(db.Snapshot()), body, now)
  {
    var parsed := ParseBadge(body);
    if parsed.None? {
      return ValidationError();
    }
    var d := parsed.value;
    if NameTaken(db.badges, d.name) {
      return DuplicateName();
    }
    var id := db.BadgeCreate(NewBadge(d, now));
    resp := Ok(ViewOf(db.Snapshot(), id));
  }
}
