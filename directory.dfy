/** The two directory sources and the identity mapping applied to their raw
    records. Each raw record becomes a `Step` for the reconciler: skipped, a
    candidate member to reconcile, or an error the mapping code throws. */
module Directory {
  import opened Js
  import opened Store

  /** What the reconciler writes for one directory user; `externalId` and
      `name` may be undefined for the cloud directory, whose records are not
      checked for completeness. */
  datatype Candidate = Candidate(externalId: Option<string>, name: Option<string>, email: string, phone: Option<string>)

  datatype Step = Skip | Apply(candidate: Candidate) | Throw(error: Error)

  /** The steps that are not skips, in their order. */
  function NonSkips(steps: seq<Step>): (r: seq<Step>)
    ensures |r| <= |steps|
    ensures forall i :: 0 <= i < |r| ==> !r[i].Skip?
    decreases |steps|
  {
    if steps == [] then []
    else
      var p := NonSkips(steps[..|steps| - 1]);
      if steps[|steps| - 1].Skip? then p else p + [steps[|steps| - 1]]
  }

  // ---------------------------------------------------------------------
  // LDAP
  // ---------------------------------------------------------------------

  /** The attributes of one search entry the mapping reads. */
  datatype LdapEntry = LdapEntry(
    objectGUID: Option<string>, entryUUID: Option<string>, uid: Option<string>,
    mail: Option<string>, email: Option<string>,
    displayName: Option<string>, givenName: Option<string>, sn: Option<string>,
    telephoneNumber: Option<string>, mobile: Option<string>)

  /** How the directory answers one run: the bind's error, if any, and the
      search's entries or its error. */
  datatype LdapDirectory = LdapDirectory(bindError: Option<string>, search: Result<seq<LdapEntry>, string>)

  /** `objectGUID || entryUUID || uid` */
  function LdapExternalId(u: LdapEntry): Option<string> {
    Or(Or(u.objectGUID, u.entryUUID), u.uid)
  }

  /** `mail || email` */
  function LdapEmail(u: LdapEntry): Option<string> {
    Or(u.mail, u.email)
  }

  /** `displayName || \`${givenName} ${sn}\`.trim()` */
  function LdapName(u: LdapEntry): string {
    if Truthy(u.displayName) then u.displayName.value
    else Trim(Render(u.givenName) + " " + Render(u.sn))
  }

  /** `telephoneNumber || mobile` */
  function LdapPhone(u: LdapEntry): Option<string> {
    Or(u.telephoneNumber, u.mobile)
  }

  /** The entry has a truthy external id, e-mail and name. */
  predicate LdapComplete(u: LdapEntry) {
    Truthy(LdapExternalId(u)) && Truthy(LdapEmail(u)) && LdapName(u) != ""
  }

  function LdapStep(u: LdapEntry): Step {
    if !LdapComplete(u) then Skip
    else Apply(Candidate(LdapExternalId(u), Some(LdapName(u)), LdapEmail(u).value, LdapPhone(u)))
  }

  function LdapSteps(us: seq<LdapEntry>): (steps: seq<Step>)
    ensures |steps| == |us|
    ensures forall i :: 0 <= i < |us| ==> steps[i] == LdapStep(us[i])
  {
    seq(|us|, i requires 0 <= i < |us| => LdapStep(us[i]))
  }

  /** The external id is the first truthy one of objectGUID, entryUUID, uid;
      it is falsy only when all three are. */
  lemma LdapExternalIdIsFirstTruthy(u: LdapEntry)
    ensures Truthy(u.objectGUID) ==> LdapExternalId(u) == u.objectGUID
    ensures !Truthy(u.objectGUID) && Truthy(u.entryUUID) ==> LdapExternalId(u) == u.entryUUID
    ensures !Truthy(u.objectGUID) && !Truthy(u.entryUUID) ==> LdapExternalId(u) == u.uid
    ensures Truthy(LdapExternalId(u)) <==> Truthy(u.objectGUID) || Truthy(u.entryUUID) || Truthy(u.uid)
  {
  }

  /** The name is empty exactly when there is no truthy display name and both
      name parts are defined and blank: an undefined part renders as the text
      "undefined", which survives `trim()`. */
  lemma LdapNameEmptyIff(u: LdapEntry)
    ensures LdapName(u) == "" <==>
      && !Truthy(u.displayName)
      && u.givenName.Some? && AllSpace(u.givenName.value)
      && u.sn.Some? && AllSpace(u.sn.value)
  {
    if !Truthy(u.displayName) {
      var g, f := Render(u.givenName), Render(u.sn);
      AllSpaceConcat(g, " ");
      AllSpaceConcat(g + " ", f);
      assert !AllSpace("undefined") by { assert !IsSpace("undefined"[0]); }
    }
  }

  /** With neither a display name nor given name nor surname, the name is the
      literal "undefined undefined"; with only a surname it starts with the
      word "undefined". */
  lemma LdapNameRendersUndefined(u: LdapEntry)
    requires !Truthy(u.displayName) && u.givenName.None?
    ensures u.sn.None? ==> LdapName(u) == "undefined undefined"
    ensures |LdapName(u)| >= 9 && LdapName(u)[..9] == "undefined"
  {
    var t := Render(u.givenName) + " " + Render(u.sn);
    assert t[0] == 'u';
    var a := TrimStart(t);
    assert a == t;
    var r := TrimEnd(a);
    if u.sn.None? {
      assert t == "undefined undefined";
      assert t[|t| - 1] == 'd';
      assert r == t;
    }
    assert AllSpace(t[|r|..]);
    assert t[..9] == "undefined";
    NoSpaceIn(t, 9);
    SpaceSuffixStartsLate(t, |r|, 9);
    assert r[..9] == t[..9];
  }

  /** None of the first `n` characters of `t` is white space, as in the text "undefined". */
  lemma NoSpaceIn(t: string, n: nat)
    requires n == 9 && n <= |t| && t[..n] == "undefined"
    ensures forall i :: 0 <= i < n ==> !IsSpace(t[i])
  {
    forall i | 0 <= i < n ensures !IsSpace(t[i]) {
      assert t[i] == t[..n][i];
      assert t[i] in "undefined";
    }
  }

  /** A white-space suffix cannot begin among the non-space leading characters. */
  lemma SpaceSuffixStartsLate(t: string, j: nat, n: nat)
    requires j <= |t| && n <= |t| && AllSpace(t[j..])
    requires forall i :: 0 <= i < n ==> !IsSpace(t[i])
    ensures j >= n
  {
    if j < |t| {
      assert IsSpace(t[j..][0]);
      assert IsSpace(t[j]);
    }
  }

  /** An entry is skipped exactly when it is incomplete; otherwise its
      candidate carries its truthy external id, e-mail and name. */
  lemma LdapStepSkipsIncomplete(u: LdapEntry)
    ensures LdapStep(u).Skip? <==>
      !Truthy(LdapExternalId(u)) || !Truthy(LdapEmail(u)) || LdapName(u) == ""
    ensures LdapStep(u).Apply? ==>
      var c := LdapStep(u).candidate;
      Truthy(c.externalId) && c.email != "" && c.name.Some? && c.name.value != ""
    ensures !LdapStep(u).Throw?
  {
  }

  /** The entries that are not skipped, in search order. */
  function CompleteEntries(us: seq<LdapEntry>): (r: seq<LdapEntry>)
    ensures forall i :: 0 <= i < |r| ==> LdapComplete(r[i])
    decreases |us|
  {
    if us == [] then []
    else
      var p := CompleteEntries(us[..|us| - 1]);
      if LdapComplete(us[|us| - 1]) then p + [us[|us| - 1]] else p
  }

  /** Dropping the skipped steps leaves exactly the steps of the complete entries. */
  lemma {:induction false} LdapNonSkipsAreComplete(us: seq<LdapEntry>)
    ensures NonSkips(LdapSteps(us)) == LdapSteps(CompleteEntries(us))
    decreases |us|
  {
    if us != [] {
      var n := |us| - 1;
      LdapNonSkipsAreComplete(us[..n]);
      assert LdapSteps(us)[..n] == LdapSteps(us[..n]);
      var p := CompleteEntries(us[..n]);
      if LdapComplete(us[n]) {
        assert LdapSteps(p + [us[n]]) == LdapSteps(p) + [LdapStep(us[n])];
      }
    }
  }

  // ---------------------------------------------------------------------
  // Google Workspace
  // ---------------------------------------------------------------------

  datatype UserName = UserName(fullName: Option<string>)

  datatype UserPhone = UserPhone(value: Option<string>)

  /** The fields of one Admin SDK user the mapping reads. */
  datatype GoogleUser = GoogleUser(
    id: Option<string>, primaryEmail: Option<string>, suspended: Option<bool>,
    name: Option<UserName>, phones: Option<seq<UserPhone>>)

  /** One answer to a `users.list` request. */
  datatype PageResponse =
    | Page(users: Option<seq<GoogleUser>>, nextPageToken: Option<string>)
    | ListError(reason: string)

  /** How the directory answers one run: its responses to successive list
      requests, in order. */
  datatype GoogleDirectory = GoogleDirectory(responses: seq<PageResponse>)

  /** `response.data.users || []` */
  function PageUsers(p: PageResponse): seq<GoogleUser>
    requires p.Page?
  {
    p.users.GetOr([])
  }

  /** The users the paging loop accumulates: pages are requested while the
      previous one returned a truthy continuation token. */
  function AllUsers(responses: seq<PageResponse>): Result<seq<GoogleUser>, Error>
    decreases |responses|
  {
    if responses == [] then Failure(DirectoryExhausted)
    else match responses[0]
      case ListError(reason) => Failure(ListFailed(reason))
      case Page(_, token) =>
        if !Truthy(token) then Success(PageUsers(responses[0]))
        else match AllUsers(responses[1..])
          case Success(rest) => Success(PageUsers(responses[0]) + rest)
          case Failure(e) => Failure(e)
  }

  /** The users of a run of pages, concatenated in page order. */
  function ConcatPages(ps: seq<PageResponse>): seq<GoogleUser>
    requires forall i :: 0 <= i < |ps| ==> ps[i].Page?
  {
    if ps == [] then [] else PageUsers(ps[0]) + ConcatPages(ps[1..])
  }

  /** Responses 0..k-1 carry a truthy continuation token and response k is a
      page without one. */
  ghost predicate StopsAt(responses: seq<PageResponse>, k: nat) {
    && k < |responses|
    && (forall i :: 0 <= i <= k ==> responses[i].Page?)
    && (forall i :: 0 <= i < k ==> Truthy(responses[i].nextPageToken))
    && !Truthy(responses[k].nextPageToken)
  }

  /** Paging that stops at page k yields the users of pages 0..k in order. */
  lemma {:induction false} AllUsersConcatenatesPages(responses: seq<PageResponse>, k: nat)
    requires StopsAt(responses, k)
    ensures AllUsers(responses) == Success(ConcatPages(responses[..k + 1]))
    decreases k
  {
    var ps := responses[..k + 1];
    if k == 0 {
      assert responses[0].Page?;
      assert ps[0] == responses[0] && ps[1..] == [];
      assert ConcatPages(ps) == PageUsers(responses[0]) + [];
      assert !Truthy(responses[0].nextPageToken);
      assert PageUsers(responses[0]) + [] == PageUsers(responses[0]);
    } else {
      assert StopsAt(responses[1..], k - 1);
      AllUsersConcatenatesPages(responses[1..], k - 1);
      assert responses[1..][..k] == ps[1..];
    }
  }

  /** A listing error before paging stops fails the whole fetch. */
  lemma {:induction false} AllUsersFailsOnError(responses: seq<PageResponse>, k: nat)
    requires k < |responses| && responses[k].ListError?
    requires forall i :: 0 <= i < k ==> responses[i].Page? && Truthy(responses[i].nextPageToken)
    ensures AllUsers(responses) == Failure(ListFailed(responses[k].reason))
    decreases k
  {
    if k > 0 {
      AllUsersFailsOnError(responses[1..], k - 1);
    }
  }

  /** `us` followed by the users of `r`, or the failure of `r`. */
  function Prepend(us: seq<GoogleUser>, r: Result<seq<GoogleUser>, Error>): Result<seq<GoogleUser>, Error> {
    match r
    case Success(rest) => Success(us + rest)
    case Failure(e) => Failure(e)
  }

  /** The `do { ... } while (pageToken)` loop of the cloud-directory sync. */
  method FetchAllUsers(dir: GoogleDirectory) returns (r: Result<seq<GoogleUser>, Error>)
    ensures r == AllUsers(dir.responses)
  {
    var rs := dir.responses;
    var allUsers: seq<GoogleUser> := [];
    var k := 0;
    var more := true;
    assert AllUsers(rs) == Prepend([], AllUsers(rs[k..])) by {
      assert rs[k..] == rs;
      match AllUsers(rs)
      case Success(rest) => assert [] + rest == rest;
      case Failure(_) =>
    }
    while more
      invariant 0 <= k <= |rs|
      invariant more ==> AllUsers(rs) == Prepend(allUsers, AllUsers(rs[k..]))
      invariant !more ==> AllUsers(rs) == Success(allUsers)
      decreases |rs| - k, more
    {
      if k == |rs| {
        return Failure(DirectoryExhausted);
      }
      match rs[k]
      case ListError(reason) =>
        return Failure(ListFailed(reason));
      case Page(users, token) =>
        assert rs[k..][0] == rs[k] && rs[k..][1..] == rs[k + 1..];
        var page := PageUsers(rs[k]);
        if Truthy(token) {
          match AllUsers(rs[k + 1..])
          case Success(rest) => assert allUsers + (page + rest) == (allUsers + page) + rest;
          case Failure(_) =>
        }
        allUsers := allUsers + page;
        more := Truthy(token);
        k := k + 1;
    }
    r := Success(allUsers);
  }

  /** `user.phones?.[0]?.value` */
  function FirstPhone(phones: Option<seq<UserPhone>>): Option<string> {
    if phones.Some? && |phones.value| > 0 then phones.value[0].value else None
  }

  /** A user without a truthy primary e-mail, or suspended, is skipped; any
      other user is applied as it is, and reading `name.fullName` throws
      when `name` is undefined. */
  function GoogleStep(u: GoogleUser): Step {
    if !Truthy(u.primaryEmail) || u.suspended == Some(true) then Skip
    else if u.name.None? then Throw(UndefinedUserName)
    else Apply(Candidate(u.id, u.name.value.fullName, u.primaryEmail.value, FirstPhone(u.phones)))
  }

  function GoogleSteps(us: seq<GoogleUser>): (steps: seq<Step>)
    ensures |steps| == |us|
    ensures forall i :: 0 <= i < |us| ==> steps[i] == GoogleStep(us[i])
  {
    seq(|us|, i requires 0 <= i < |us| => GoogleStep(us[i]))
  }

  /** The users that are not skipped: active ones with a primary e-mail. */
  predicate GoogleActive(u: GoogleUser) {
    Truthy(u.primaryEmail) && u.suspended != Some(true)
  }

  function ActiveUsers(us: seq<GoogleUser>): (r: seq<GoogleUser>)
    ensures forall i :: 0 <= i < |r| ==> GoogleActive(r[i])
    decreases |us|
  {
    if us == [] then []
    else
      var p := ActiveUsers(us[..|us| - 1]);
      if GoogleActive(us[|us| - 1]) then p + [us[|us| - 1]] else p
  }

  /** Dropping the skipped steps leaves exactly the steps of the active users. */
  lemma {:induction false} GoogleNonSkipsAreActive(us: seq<GoogleUser>)
    ensures NonSkips(GoogleSteps(us)) == GoogleSteps(ActiveUsers(us))
    decreases |us|
  {
    if us != [] {
      var n := |us| - 1;
      GoogleNonSkipsAreActive(us[..n]);
      assert GoogleSteps(us)[..n] == GoogleSteps(us[..n]);
      var p := ActiveUsers(us[..n]);
      if GoogleActive(us[n]) {
        assert GoogleSteps(p + [us[n]]) == GoogleSteps(p) + [GoogleStep(us[n])];
      }
    }
  }

  /** Only the e-mail and suspension status decide whether a user is skipped;
      an active user with an e-mail is reconciled even with an undefined id or
      full name, those fields passed on as they are. */
  lemma GoogleHasNoCompletenessCheck(u: GoogleUser)
    ensures GoogleStep(u).Skip? <==> !Truthy(u.primaryEmail) || u.suspended == Some(true)
    ensures GoogleStep(u).Apply? ==>
      && GoogleStep(u).candidate.externalId == u.id
      && GoogleStep(u).candidate.name == u.name.value.fullName
      && Truthy(Some(GoogleStep(u).candidate.email))
  {
  }
}
