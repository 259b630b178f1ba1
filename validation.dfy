/** The request-body schemas of `lib/validation.ts`, built from the schema
    combinators they are written with: string fields with length, e-mail and
    pattern rules, booleans, string arrays, optional fields, defaults, and
    the object-level `extend`, `partial` and `required`. Each schema is then
    given in closed form by a lemma: which bodies it accepts and what it
    outputs. */
module Validation {
  import opened Js

  /** A JSON value of a request body. A number only matters by its type. */
  datatype Value =
    | Null
    | Flag(b: bool)
    | Number(n: int)
    | Text(s: string)
    | Items(items: seq<Value>)
    | Record(entries: map<string, Value>)

  /** A JSON object; a key that is absent is `undefined`. */
  type Body = map<string, Value>

  /** A refinement on a string field. */
  datatype Rule = MinLength(n: nat) | MaxLength(n: nat) | EmailFormat | ColorFormat

  /** A field schema. */
  datatype Field =
    | Str(rules: seq<Rule>)              // z.string() with its refinements
    | Bool                               // z.boolean()
    | StrArray                           // z.array(z.string())
    | AnyRecord                          // z.record(z.any())
    | OneOf(options: seq<string>)        // z.enum([...])
    | Optional(inner: Field)             // .optional()
    | Default(inner: Field, value: Value) // .default(value)

  /** An object schema: its fields by key. */
  type Shape = map<string, Field>

  /** What a field schema makes of a value: rejection, or the parsed value
      (which is absent when an optional field was not given). */
  datatype Parsed = Rejected | Accepted(out: Option<Value>)

  // ---------------------------------------------------------------------
  // The colour pattern
  // ---------------------------------------------------------------------

  /** A character of the class `[0-9A-F]` under the case-insensitive flag. */
  predicate IsHexChar(c: char) {
    '0' <= c <= '9' || 'A' <= c <= 'F' || 'a' <= c <= 'f'
  }

  /** `([0-9A-F]{3}){lo,hi}$` against the rest `t` of the input: each
      repetition takes three digits, and once `lo` of them have been taken
      the match may end where the input ends. */
  predicate GroupsMatch(t: string, lo: nat, hi: nat)
    decreases hi
  {
    || (lo == 0 && t == [])
    || (&& hi > 0 && |t| >= 3
        && IsHexChar(t[0]) && IsHexChar(t[1]) && IsHexChar(t[2])
        && GroupsMatch(t[3..], if lo > 0 then lo - 1 else 0, hi - 1))
  }

  /** `/^#([0-9A-F]{3}){1,2}$/i`. */
  predicate MatchesColorPattern(s: string) {
    |s| >= 1 && s[0] == '#' && GroupsMatch(s[1..], 1, 2)
  }

  /** The colour rule in closed form: "#" and then exactly three or exactly
      six hexadecimal digits of either case. */
  predicate IsColor(s: string) {
    && (|s| == 4 || |s| == 7)
    && s[0] == '#'
    && forall i :: 1 <= i < |s| ==> IsHexChar(s[i])
  }

  lemma {:induction false} GroupsMatchClosedForm(t: string, lo: nat, hi: nat)
    ensures GroupsMatch(t, lo, hi) <==>
      && |t| % 3 == 0 && lo <= |t| / 3 <= hi
      && forall i :: 0 <= i < |t| ==> IsHexChar(t[i])
    decreases hi
  {
    if hi > 0 && |t| >= 3 {
      var lo' := if lo > 0 then lo - 1 else 0;
      GroupsMatchClosedForm(t[3..], lo', hi - 1);
      assert forall i :: 3 <= i < |t| ==> t[3..][i - 3] == t[i];
      assert (forall i :: 0 <= i < |t| ==> IsHexChar(t[i])) <==>
        IsHexChar(t[0]) && IsHexChar(t[1]) && IsHexChar(t[2])
        && forall i :: 0 <= i < |t[3..]| ==> IsHexChar(t[3..][i]);
    }
  }

  /** The colour pattern accepts exactly the colours of the closed form. */
  lemma ColorPatternClosedForm(s: string)
    ensures MatchesColorPattern(s) <==> IsColor(s)
  {
    if |s| >= 1 {
      GroupsMatchClosedForm(s[1..], 1, 2);
      assert forall i :: 1 <= i < |s| ==> s[1..][i - 1] == s[i];
    }
  }

  // ---------------------------------------------------------------------
  // Parsing
  // ---------------------------------------------------------------------

  predicate Satisfies(s: string, rule: Rule, isEmail: string -> bool) {
    match rule
    case MinLength(n) => Utf16Length(s) >= n
    case MaxLength(n) => Utf16Length(s) <= n
    case EmailFormat => isEmail(s)
    case ColorFormat => MatchesColorPattern(s)
  }

  predicate SatisfiesAll(s: string, rules: seq<Rule>, isEmail: string -> bool)
    decreases |rules|
  {
    rules == [] || (Satisfies(s, rules[0], isEmail) && SatisfiesAll(s, rules[1..], isEmail))
  }

  /** A field schema applied to the body's value for its key. An optional
      field accepts `undefined` as it is; a default replaces `undefined` by
      the default value and parses that with the inner schema. */
  function Parse(f: Field, v: Option<Value>, isEmail: string -> bool): Parsed
    decreases f
  {
    match f
    case Str(rules) =>
      if v.Some? && v.value.Text? && SatisfiesAll(v.value.s, rules, isEmail) then Accepted(v) else Rejected
    case Bool =>
      if v.Some? && v.value.Flag? then Accepted(v) else Rejected
    case StrArray =>
      if v.Some? && v.value.Items? && forall i :: 0 <= i < |v.value.items| ==> v.value.items[i].Text?
      then Accepted(v) else Rejected
    case AnyRecord =>
      if v.Some? && v.value.Record? then Accepted(v) else Rejected
    case OneOf(options) =>
      if v.Some? && v.value.Text? && v.value.s in options then Accepted(v) else Rejected
    case Optional(inner) =>
      if v.None? then Accepted(None) else Parse(inner, v, isEmail)
    case Default(inner, d) =>
      Parse(inner, if v.None? then Some(d) else v, isEmail)
  }

  function Lookup(body: Body, key: string): Option<Value> {
    if key in body then Some(body[key]) else None
  }

  /** `z.object(shape).parse(body)`: every field must accept the body's value
      for its key; the output holds the fields whose parsed value is defined
      and drops the keys the shape does not name. */
  function ParseObject(shape: Shape, body: Body, isEmail: string -> bool): Option<Body> {
    if forall k :: k in shape ==> Parse(shape[k], Lookup(body, k), isEmail).Accepted? then
      Some(map k | k in shape && Parse(shape[k], Lookup(body, k), isEmail).out.Some? ::
        Parse(shape[k], Lookup(body, k), isEmail).out.value)
    else None
  }

  /** `schema.extend(extra)`: the extra fields are added, replacing any of the same key. */
  function Extend(shape: Shape, extra: Shape): Shape {
    shape + extra
  }

  /** `schema.partial()`: every field becomes optional. */
  function Partial(shape: Shape): Shape {
    map k | k in shape :: Optional(shape[k])
  }

  /** A field without its optional wrappers. */
  function Unwrap(f: Field): Field
    decreases f
  {
    if f.Optional? then Unwrap(f.inner) else f
  }

  /** `schema.required({ key: true })`: that field loses its optional wrappers. */
  function Required(shape: Shape, key: string): Shape {
    if key in shape then shape[key := Unwrap(shape[key])] else shape
  }

  // ---------------------------------------------------------------------
  // The schemas
  // ---------------------------------------------------------------------

  /** The e-mail check passed to schemas that have no e-mail field, which
      never consult it. */
  const NoEmailCheck: string -> bool := _ => true

  const NonEmpty: Field := Str([MinLength(1)])

  const TeamCreateSchema: Shape := map[
    "name" := Str([MinLength(1), MaxLength(100)]),
    "description" := Default(Optional(Str([MaxLength(500)])), Text(""))]

  const TeamUpdateSchema: Shape := Extend(TeamCreateSchema, map["id" := NonEmpty])

  const MemberCreateSchema: Shape := map[
    "name" := Str([MinLength(1), MaxLength(100)]),
    "email" := Str([EmailFormat]),
    "role" := NonEmpty,
    "teamId" := NonEmpty,
    "isOnCall" := Default(Optional(Bool), Flag(false)),
    "phone" := Optional(Str([])),
    "skills" := Default(Optional(StrArray), Items([])),
    "badges" := Default(Optional(StrArray), Items([]))]

  const MemberUpdateSchema: Shape := Required(Partial(Extend(MemberCreateSchema, map["id" := NonEmpty])), "id")

  const BadgeCreateSchema: Shape := map[
    "name" := Str([MinLength(1), MaxLength(50)]),
    "description" := Default(Optional(Str([MaxLength(200)])), Text("")),
    "color" := Default(Str([ColorFormat]), Text("#000000"))]

  const BadgeUpdateSchema: Shape := Required(Partial(Extend(BadgeCreateSchema, map["id" := NonEmpty])), "id")

  const BadgeAssignmentSchema: Shape := map["badgeId" := NonEmpty]

  // ---------------------------------------------------------------------
  // What the schemas accept, in closed form
  // ---------------------------------------------------------------------

  /** A string whose length lies in `lo..hi`. */
  predicate TextWithin(v: Option<Value>, lo: nat, hi: nat) {
    v.Some? && v.value.Text? && lo <= Utf16Length(v.value.s) <= hi
  }

  predicate NonEmptyText(v: Option<Value>) {
    v.Some? && v.value.Text? && v.value.s != []
  }

  /** Absent, or a string of at most `hi` characters. */
  predicate OptionalTextUpTo(v: Option<Value>, hi: nat) {
    v.None? || TextWithin(v, 0, hi)
  }

  predicate IsStrings(v: Value) {
    v.Items? && forall i :: 0 <= i < |v.items| ==> v.items[i].Text?
  }

  lemma ParseObjectField(shape: Shape, body: Body, isEmail: string -> bool, k: string)
    requires ParseObject(shape, body, isEmail).Some?
    ensures k in shape ==> Parse(shape[k], Lookup(body, k), isEmail).Accepted?
    ensures Lookup(ParseObject(shape, body, isEmail).value, k) ==
      if k in shape then Parse(shape[k], Lookup(body, k), isEmail).out else None
  {
  }

  /** An object schema whose fields are known one by one: it accepts a body
      iff every field is acceptable, and it outputs each field's value. */
  lemma ObjectContract(shape: Shape, body: Body, isEmail: string -> bool, ok: string -> bool, out: string -> Option<Value>)
    requires forall k :: k in shape ==> (Parse(shape[k], Lookup(body, k), isEmail).Accepted? <==> ok(k))
    requires forall k :: k in shape && ok(k) ==> Parse(shape[k], Lookup(body, k), isEmail).out == out(k)
    ensures ParseObject(shape, body, isEmail).Some? <==> forall k :: k in shape ==> ok(k)
    ensures ParseObject(shape, body, isEmail).Some? ==>
      forall k :: Lookup(ParseObject(shape, body, isEmail).value, k) == if k in shape then out(k) else None
  {
    var r := ParseObject(shape, body, isEmail);
    if r.Some? {
      forall k ensures Lookup(r.value, k) == if k in shape then out(k) else None {
        ParseObjectField(shape, body, isEmail, k);
      }
    }
  }

  // The team schemas

  predicate TeamFieldOk(body: Body, k: string) {
    if k == "name" then TextWithin(Lookup(body, k), 1, 100) else OptionalTextUpTo(Lookup(body, k), 500)
  }

  /** The team schemas' output for a key of the creation schema. */
  function TeamOutputAt(body: Body, k: string): Option<Value> {
    if k == "name" then Lookup(body, k) else Some(Lookup(body, k).GetOr(Text("")))
  }

  lemma TeamFieldParse(body: Body, isEmail: string -> bool, k: string)
    requires k in TeamCreateSchema
    ensures Parse(TeamCreateSchema[k], Lookup(body, k), isEmail).Accepted? <==> TeamFieldOk(body, k)
    ensures TeamFieldOk(body, k) ==> Parse(TeamCreateSchema[k], Lookup(body, k), isEmail).out == TeamOutputAt(body, k)
  {
  }

  /** A team needs a name of 1 to 100 characters; its description has at
      most 500 and defaults to "". */
  lemma TeamCreateContract(body: Body, isEmail: string -> bool)
    ensures ParseObject(TeamCreateSchema, body, isEmail).Some? <==>
      TextWithin(Lookup(body, "name"), 1, 100) && OptionalTextUpTo(Lookup(body, "description"), 500)
    ensures ParseObject(TeamCreateSchema, body, isEmail).Some? ==>
      && Lookup(ParseObject(TeamCreateSchema, body, isEmail).value, "name") == Lookup(body, "name")
      && Lookup(ParseObject(TeamCreateSchema, body, isEmail).value, "description") == Some(Lookup(body, "description").GetOr(Text("")))
      && ParseObject(TeamCreateSchema, body, isEmail).value.Keys == {"name", "description"}
  {
    forall k | k in TeamCreateSchema
      ensures Parse(TeamCreateSchema[k], Lookup(body, k), isEmail).Accepted? <==> TeamFieldOk(body, k)
      ensures TeamFieldOk(body, k) ==> Parse(TeamCreateSchema[k], Lookup(body, k), isEmail).out == TeamOutputAt(body, k)
    {
      TeamFieldParse(body, isEmail, k);
    }
    ObjectContract(TeamCreateSchema, body, isEmail, k => TeamFieldOk(body, k), k => TeamOutputAt(body, k));
    assert TeamCreateSchema.Keys == {"name", "description"};
    assert (forall k :: k in TeamCreateSchema ==> TeamFieldOk(body, k)) <==>
      TeamFieldOk(body, "name") && TeamFieldOk(body, "description");
  }

  predicate TeamUpdateFieldOk(body: Body, k: string) {
    if k == "id" then NonEmptyText(Lookup(body, k)) else TeamFieldOk(body, k)
  }

  function TeamUpdateOutputAt(body: Body, k: string): Option<Value> {
    if k == "id" then Lookup(body, k) else TeamOutputAt(body, k)
  }

  lemma TeamUpdateFieldParse(body: Body, isEmail: string -> bool, k: string)
    requires k in TeamUpdateSchema
    ensures Parse(TeamUpdateSchema[k], Lookup(body, k), isEmail).Accepted? <==> TeamUpdateFieldOk(body, k)
    ensures TeamUpdateFieldOk(body, k) ==> Parse(TeamUpdateSchema[k], Lookup(body, k), isEmail).out == TeamUpdateOutputAt(body, k)
  {
    if k != "id" {
      assert k in TeamCreateSchema && TeamUpdateSchema[k] == TeamCreateSchema[k];
      TeamFieldParse(body, isEmail, k);
    }
  }

  /** The team update schema only adds the id: it is not partial, so the
      name is required as at creation and the description still defaults. */
  lemma TeamUpdateContract(body: Body, isEmail: string -> bool)
    ensures ParseObject(TeamUpdateSchema, body, isEmail).Some? <==>
      && TextWithin(Lookup(body, "name"), 1, 100) && OptionalTextUpTo(Lookup(body, "description"), 500)
      && NonEmptyText(Lookup(body, "id"))
    ensures ParseObject(TeamUpdateSchema, body, isEmail).Some? ==>
      && Lookup(ParseObject(TeamUpdateSchema, body, isEmail).value, "name") == Lookup(body, "name")
      && Lookup(ParseObject(TeamUpdateSchema, body, isEmail).value, "description") == Some(Lookup(body, "description").GetOr(Text("")))
      && Lookup(ParseObject(TeamUpdateSchema, body, isEmail).value, "id") == Lookup(body, "id")
      && ParseObject(TeamUpdateSchema, body, isEmail).value.Keys == {"name", "description", "id"}
  {
    forall k | k in TeamUpdateSchema
      ensures Parse(TeamUpdateSchema[k], Lookup(body, k), isEmail).Accepted? <==> TeamUpdateFieldOk(body, k)
      ensures TeamUpdateFieldOk(body, k) ==> Parse(TeamUpdateSchema[k], Lookup(body, k), isEmail).out == TeamUpdateOutputAt(body, k)
    {
      TeamUpdateFieldParse(body, isEmail, k);
    }
    ObjectContract(TeamUpdateSchema, body, isEmail, k => TeamUpdateFieldOk(body, k), k => TeamUpdateOutputAt(body, k));
    assert TeamUpdateSchema.Keys == {"name", "description", "id"};
    assert (forall k :: k in TeamUpdateSchema ==> TeamUpdateFieldOk(body, k)) <==>
      TeamUpdateFieldOk(body, "name") && TeamUpdateFieldOk(body, "description") && TeamUpdateFieldOk(body, "id");
  }

  // The member schemas

  /** The condition the member creation schema puts on each of its keys. */
  predicate MemberFieldOk(body: Body, isEmail: string -> bool, k: string) {
    if k == "name" then TextWithin(Lookup(body, "name"), 1, 100)
    else if k == "email" then "email" in body && body["email"].Text? && isEmail(body["email"].s)
    else if k == "role" || k == "teamId" then NonEmptyText(Lookup(body, k))
    else if k == "isOnCall" then k in body ==> body[k].Flag?
    else if k == "phone" then k in body ==> body[k].Text?
    else k in body ==> IsStrings(body[k])
  }

  /** What the member creation schema outputs for each key: the body's value,
      or the default when the body has none. */
  function MemberOutputAt(body: Body, k: string): Option<Value> {
    if k == "isOnCall" then Some(Lookup(body, k).GetOr(Flag(false)))
    else if k == "skills" || k == "badges" then Some(Lookup(body, k).GetOr(Items([])))
    else if k in MemberCreateSchema then Lookup(body, k)
    else None
  }

  lemma MemberFieldParse(body: Body, isEmail: string -> bool, k: string)
    requires k in MemberCreateSchema
    ensures Parse(MemberCreateSchema[k], Lookup(body, k), isEmail).Accepted? <==> MemberFieldOk(body, isEmail, k)
    ensures MemberFieldOk(body, isEmail, k) ==> Parse(MemberCreateSchema[k], Lookup(body, k), isEmail).out == MemberOutputAt(body, k)
  {
  }

  /** What the member creation schema asks of a body: a name of 1 to 100
      characters, an e-mail address, a non-empty role and team id, and
      well-typed optional fields. */
  predicate MemberBodyOk(body: Body, isEmail: string -> bool) {
    && TextWithin(Lookup(body, "name"), 1, 100)
    && "email" in body && body["email"].Text? && isEmail(body["email"].s)
    && NonEmptyText(Lookup(body, "role")) && NonEmptyText(Lookup(body, "teamId"))
    && ("isOnCall" in body ==> body["isOnCall"].Flag?)
    && ("phone" in body ==> body["phone"].Text?)
    && ("skills" in body ==> IsStrings(body["skills"]))
    && ("badges" in body ==> IsStrings(body["badges"]))
  }

  lemma MemberFieldsOk(body: Body, isEmail: string -> bool)
    ensures (forall k :: k in MemberCreateSchema ==> MemberFieldOk(body, isEmail, k)) <==> MemberBodyOk(body, isEmail)
  {
    assert MemberCreateSchema.Keys == {"name", "email", "role", "teamId", "isOnCall", "phone", "skills", "badges"};
    if forall k :: k in MemberCreateSchema ==> MemberFieldOk(body, isEmail, k) {
      assert MemberFieldOk(body, isEmail, "name") && MemberFieldOk(body, isEmail, "email");
      assert MemberFieldOk(body, isEmail, "role") && MemberFieldOk(body, isEmail, "teamId");
      assert MemberFieldOk(body, isEmail, "isOnCall") && MemberFieldOk(body, isEmail, "phone");
      assert MemberFieldOk(body, isEmail, "skills") && MemberFieldOk(body, isEmail, "badges");
    }
  }

  /** The member creation schema accepts exactly the bodies of `MemberBodyOk`;
      `isOnCall` defaults to false, `skills` and `badges` to [], `phone`
      stays absent when it is not given, and every other key is dropped. */
  lemma MemberCreateContract(body: Body, isEmail: string -> bool)
    ensures ParseObject(MemberCreateSchema, body, isEmail).Some? <==> MemberBodyOk(body, isEmail)
    ensures ParseObject(MemberCreateSchema, body, isEmail).Some? ==>
      forall k :: Lookup(ParseObject(MemberCreateSchema, body, isEmail).value, k) == MemberOutputAt(body, k)
  {
    MemberFieldsParse(body, isEmail);
    ObjectContract(MemberCreateSchema, body, isEmail, k => MemberFieldOk(body, isEmail, k), k => MemberOutputAt(body, k));
    MemberFieldsOk(body, isEmail);
  }

  /** Every field of the member creation schema, in closed form. */
  lemma MemberFieldsParse(body: Body, isEmail: string -> bool)
    ensures forall k :: k in MemberCreateSchema ==>
      (Parse(MemberCreateSchema[k], Lookup(body, k), isEmail).Accepted? <==> MemberFieldOk(body, isEmail, k))
    ensures forall k :: k in MemberCreateSchema && MemberFieldOk(body, isEmail, k) ==>
      Parse(MemberCreateSchema[k], Lookup(body, k), isEmail).out == MemberOutputAt(body, k)
  {
    forall k | k in MemberCreateSchema
      ensures Parse(MemberCreateSchema[k], Lookup(body, k), isEmail).Accepted? <==> MemberFieldOk(body, isEmail, k)
      ensures MemberFieldOk(body, isEmail, k) ==> Parse(MemberCreateSchema[k], Lookup(body, k), isEmail).out == MemberOutputAt(body, k)
    {
      MemberFieldParse(body, isEmail, k);
    }
  }

  // The badge schemas

  /** The condition the badge creation schema puts on each of its keys. */
  predicate BadgeFieldOk(body: Body, k: string) {
    if k == "name" then TextWithin(Lookup(body, "name"), 1, 50)
    else if k == "description" then OptionalTextUpTo(Lookup(body, "description"), 200)
    else k in body ==> body[k].Text? && IsColor(body[k].s)
  }

  /** What the badge creation schema outputs for each key. */
  function BadgeOutputAt(body: Body, k: string): Option<Value> {
    if k == "name" then Lookup(body, k)
    else if k == "description" then Some(Lookup(body, k).GetOr(Text("")))
    else if k == "color" then Some(Lookup(body, k).GetOr(Text("#000000")))
    else None
  }

  lemma BadgeFieldParse(body: Body, isEmail: string -> bool, k: string)
    requires k in BadgeCreateSchema
    ensures Parse(BadgeCreateSchema[k], Lookup(body, k), isEmail).Accepted? <==> BadgeFieldOk(body, k)
    ensures BadgeFieldOk(body, k) ==> Parse(BadgeCreateSchema[k], Lookup(body, k), isEmail).out == BadgeOutputAt(body, k)
  {
    if k == "color" {
      ColorPatternClosedForm("#000000");
      if k in body && body[k].Text? {
        ColorPatternClosedForm(body[k].s);
      }
    }
  }

  /** A badge needs a name of 1 to 50 characters; its description has at
      most 200 and defaults to "", and its colour must be a colour of the
      closed form and defaults to "#000000", which is one. */
  lemma BadgeCreateContract(body: Body, isEmail: string -> bool)
    ensures ParseObject(BadgeCreateSchema, body, isEmail).Some? <==>
      && TextWithin(Lookup(body, "name"), 1, 50) && OptionalTextUpTo(Lookup(body, "description"), 200)
      && ("color" in body ==> body["color"].Text? && IsColor(body["color"].s))
    ensures ParseObject(BadgeCreateSchema, body, isEmail).Some? ==>
      forall k :: Lookup(ParseObject(BadgeCreateSchema, body, isEmail).value, k) == BadgeOutputAt(body, k)
  {
    forall k | k in BadgeCreateSchema
      ensures Parse(BadgeCreateSchema[k], Lookup(body, k), isEmail).Accepted? <==> BadgeFieldOk(body, k)
      ensures BadgeFieldOk(body, k) ==> Parse(BadgeCreateSchema[k], Lookup(body, k), isEmail).out == BadgeOutputAt(body, k)
    {
      BadgeFieldParse(body, isEmail, k);
    }
    ObjectContract(BadgeCreateSchema, body, isEmail, k => BadgeFieldOk(body, k), k => BadgeOutputAt(body, k));
    assert BadgeCreateSchema.Keys == {"name", "description", "color"};
    assert (forall k :: k in BadgeCreateSchema ==> BadgeFieldOk(body, k)) <==>
      BadgeFieldOk(body, "name") && BadgeFieldOk(body, "description") && BadgeFieldOk(body, "color");
  }

  /** A badge assignment needs a non-empty badge id. */
  lemma BadgeAssignmentContract(body: Body, isEmail: string -> bool)
    ensures ParseObject(BadgeAssignmentSchema, body, isEmail).Some? <==> NonEmptyText(Lookup(body, "badgeId"))
    ensures ParseObject(BadgeAssignmentSchema, body, isEmail).Some? ==>
      ParseObject(BadgeAssignmentSchema, body, isEmail).value == map["badgeId" := body["badgeId"]]
  {
    var r := ParseObject(BadgeAssignmentSchema, body, isEmail);
    if r.Some? {
      ParseObjectField(BadgeAssignmentSchema, body, isEmail, "badgeId");
      assert r.value.Keys == {"badgeId"};
    }
  }

  /** After `partial()` and `required({ key: true })` the key must pass its
      own field schema, every other field is checked only when it is given,
      and a field that is not given stays absent: no default applies. */
  lemma RequiredPartialContract(shape: Shape, key: string, body: Body, isEmail: string -> bool)
    requires key in shape
    ensures ParseObject(Required(Partial(shape), key), body, isEmail).Some? <==>
      && Parse(Unwrap(shape[key]), Lookup(body, key), isEmail).Accepted?
      && forall k :: k in shape && k != key && k in body ==> Parse(shape[k], Some(body[k]), isEmail).Accepted?
    ensures ParseObject(Required(Partial(shape), key), body, isEmail).Some? ==>
      forall k :: k in shape && k != key && k !in body ==> k !in ParseObject(Required(Partial(shape), key), body, isEmail).value
  {
    var req := Required(Partial(shape), key);
    assert req[key] == Unwrap(shape[key]);
    assert forall k :: k in shape && k != key ==> req[k] == Optional(shape[k]);
    assert req.Keys == shape.Keys;
  }

  /** The member update schema: a non-empty id, and any other member field
      only when given, under its creation rule and without its default. */
  lemma MemberUpdateContract(body: Body, isEmail: string -> bool)
    ensures ParseObject(MemberUpdateSchema, body, isEmail).Some? <==>
      && NonEmptyText(Lookup(body, "id"))
      && forall k :: k in MemberCreateSchema && k in body ==> Parse(MemberCreateSchema[k], Some(body[k]), isEmail).Accepted?
    ensures ParseObject(MemberUpdateSchema, body, isEmail).Some? ==>
      forall k :: k in MemberCreateSchema && k !in body ==> k !in ParseObject(MemberUpdateSchema, body, isEmail).value
  {
    var ext := Extend(MemberCreateSchema, map["id" := NonEmpty]);
    assert "id" !in MemberCreateSchema;
    assert forall k :: k in ext && k != "id" ==> k in MemberCreateSchema && ext[k] == MemberCreateSchema[k];
    RequiredPartialContract(ext, "id", body, isEmail);
  }

  /** The badge update schema: a non-empty id, and any other badge field only
      when given, under its creation rule and without its default. */
  lemma BadgeUpdateContract(body: Body, isEmail: string -> bool)
    ensures ParseObject(BadgeUpdateSchema, body, isEmail).Some? <==>
      && NonEmptyText(Lookup(body, "id"))
      && forall k :: k in BadgeCreateSchema && k in body ==> Parse(BadgeCreateSchema[k], Some(body[k]), isEmail).Accepted?
    ensures ParseObject(BadgeUpdateSchema, body, isEmail).Some? ==>
      forall k :: k in BadgeCreateSchema && k !in body ==> k !in ParseObject(BadgeUpdateSchema, body, isEmail).value
  {
    var ext := Extend(BadgeCreateSchema, map["id" := NonEmpty]);
    assert "id" !in BadgeCreateSchema;
    assert forall k :: k in ext && k != "id" ==> k in BadgeCreateSchema && ext[k] == BadgeCreateSchema[k];
    RequiredPartialContract(ext, "id", body, isEmail);
  }

  /** Every body the member creation schema accepts, given an id, is also
      accepted by the update schema. */
  lemma MemberCreateBodyUpdates(body: Body, isEmail: string -> bool)
    requires ParseObject(MemberCreateSchema, body, isEmail).Some? && NonEmptyText(Lookup(body, "id"))
    ensures ParseObject(MemberUpdateSchema, body, isEmail).Some?
  {
    MemberUpdateContract(body, isEmail);
    forall k | k in MemberCreateSchema && k in body
      ensures Parse(MemberCreateSchema[k], Some(body[k]), isEmail).Accepted?
    {
      ParseObjectField(MemberCreateSchema, body, isEmail, k);
    }
  }

  // ---------------------------------------------------------------------
  // Reading parsed fields, as the routes destructure them
  // ---------------------------------------------------------------------

  function TextOf(data: Body, k: string): string {
    if k in data && data[k].Text? then data[k].s else ""
  }

  function OptTextOf(data: Body, k: string): Option<string> {
    if k in data && data[k].Text? then Some(data[k].s) else None
  }

  function FlagOf(data: Body, k: string): bool {
    k in data && data[k].Flag? && data[k].b
  }

  function RecordOf(data: Body, k: string): map<string, Value> {
    if k in data && data[k].Record? then data[k].entries else map[]
  }

  function TextsOf(data: Body, k: string): seq<string> {
    if k in data && data[k].Items? then Strings(data[k].items) else []
  }

  function Strings(items: seq<Value>): (r: seq<string>)
    ensures |r| == |items|
    ensures forall i :: 0 <= i < |items| && items[i].Text? ==> r[i] == items[i].s
  {
    seq(|items|, i requires 0 <= i < |items| => if items[i].Text? then items[i].s else "")
  }
}
