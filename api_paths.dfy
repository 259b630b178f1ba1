/** `apiRoutes`: the client's table of endpoint paths, relative to the API
    base, for the member, team and badge resources. */
module ApiPaths {

  // members

  const MembersList: string := "/members"
  const MembersCreate: string := "/members"

  function MembersDetail(id: string): string { "/members/" + id }
  function MembersUpdate(id: string): string { "/members/" + id }
  function MembersDelete(id: string): string { "/members/" + id }
  function MembersBadges(id: string): string { "/members/" + id + "/badges" }
  function MembersAddBadge(id: string): string { "/members/" + id + "/badges" }
  function MembersRemoveBadge(id: string, badgeId: string): string { "/members/" + id + "/badges/" + badgeId }

  // teams

  const TeamsList: string := "/teams"
  const TeamsCreate: string := "/teams"

  function TeamsDetail(id: string): string { "/teams/" + id }
  function TeamsUpdate(id: string): string { "/teams/" + id }
  function TeamsDelete(id: string): string { "/teams/" + id }
  function TeamsMembers(id: string): string { "/teams/" + id + "/members" }
  function TeamsAddMember(id: string): string { "/teams/" + id + "/members" }
  function TeamsRemoveMember(id: string, memberId: string): string { "/teams/" + id + "/members/" + memberId }

  // badges

  const BadgesList: string := "/badges"
  const BadgesCreate: string := "/badges"

  function BadgesDetail(id: string): string { "/badges/" + id }
  function BadgesUpdate(id: string): string { "/badges/" + id }
  function BadgesDelete(id: string): string { "/badges/" + id }

  // ---------------------------------------------------------------------
  // How the paths relate
  // ---------------------------------------------------------------------

  /** Listing and creating use the same path, for every resource. */
  lemma ListIsCreate()
    ensures MembersList == MembersCreate && TeamsList == TeamsCreate && BadgesList == BadgesCreate
  {
  }

  /** Reading, updating and deleting one row use the same path. */
  lemma DetailUpdateDeleteAgree(id: string)
    ensures MembersUpdate(id) == MembersDetail(id) && MembersDelete(id) == MembersDetail(id)
    ensures TeamsUpdate(id) == TeamsDetail(id) && TeamsDelete(id) == TeamsDetail(id)
    ensures BadgesUpdate(id) == BadgesDetail(id) && BadgesDelete(id) == BadgesDetail(id)
  {
  }

  /** The detail path is the list path, a slash and the id. */
  lemma DetailExtendsList(id: string)
    ensures MembersDetail(id) == MembersList + "/" + id
    ensures TeamsDetail(id) == TeamsList + "/" + id
    ensures BadgesDetail(id) == BadgesList + "/" + id
  {
  }

  /** A member's badges are added at the path that lists them, and one badge
      is removed at that path followed by a slash and the badge's id. */
  lemma MemberBadgePaths(id: string, badgeId: string)
    ensures MembersAddBadge(id) == MembersBadges(id)
    ensures MembersRemoveBadge(id, badgeId) == MembersBadges(id) + "/" + badgeId
    ensures MembersBadges(id) == MembersDetail(id) + "/badges"
  {
  }

  /** The same for a team's members. */
  lemma TeamMemberPaths(id: string, memberId: string)
    ensures TeamsAddMember(id) == TeamsMembers(id)
    ensures TeamsRemoveMember(id, memberId) == TeamsMembers(id) + "/" + memberId
    ensures TeamsMembers(id) == TeamsDetail(id) + "/members"
  {
  }

  /** `p + a == p + b` only when `a == b`. */
  lemma PrefixCancels(p: string, a: string, b: string)
    requires p + a == p + b
    ensures a == b
  {
    assert a == (p + a)[|p|..];
    assert b == (p + b)[|p|..];
  }

  /** Each detail path names one id: distinct ids give distinct paths. */
  lemma DetailInjective(a: string, b: string)
    ensures MembersDetail(a) == MembersDetail(b) ==> a == b
    ensures TeamsDetail(a) == TeamsDetail(b) ==> a == b
    ensures BadgesDetail(a) == BadgesDetail(b) ==> a == b
  {
    if MembersDetail(a) == MembersDetail(b) { PrefixCancels("/members/", a, b); }
    if TeamsDetail(a) == TeamsDetail(b) { PrefixCancels("/teams/", a, b); }
    if BadgesDetail(a) == BadgesDetail(b) { PrefixCancels("/badges/", a, b); }
  }

  /** The path begins with `root` and, if it goes on, with a slash after it. */
  predicate Under(path: string, root: string) {
    root <= path && (|path| == |root| || path[|root|] == '/')
  }

  /** Every path begins with a slash and its resource's name. */
  lemma PathsUnderResource(id: string, other: string)
    ensures Under(MembersList, "/members") && Under(MembersCreate, "/members")
    ensures Under(MembersDetail(id), "/members") && Under(MembersUpdate(id), "/members")
    ensures Under(MembersDelete(id), "/members") && Under(MembersBadges(id), "/members")
    ensures Under(MembersAddBadge(id), "/members") && Under(MembersRemoveBadge(id, other), "/members")
    ensures Under(TeamsList, "/teams") && Under(TeamsCreate, "/teams")
    ensures Under(TeamsDetail(id), "/teams") && Under(TeamsUpdate(id), "/teams")
    ensures Under(TeamsDelete(id), "/teams") && Under(TeamsMembers(id), "/teams")
    ensures Under(TeamsAddMember(id), "/teams") && Under(TeamsRemoveMember(id, other), "/teams")
    ensures Under(BadgesList, "/badges") && Under(BadgesCreate, "/badges")
    ensures Under(BadgesDetail(id), "/badges") && Under(BadgesUpdate(id), "/badges")
    ensures Under(BadgesDelete(id), "/badges")
  {
    PrefixUnder("/members/", id, "/members");
    PrefixUnder("/members/", id + "/badges", "/members");
    PrefixUnder("/members/", id + "/badges/" + other, "/members");
    PrefixUnder("/teams/", id, "/teams");
    PrefixUnder("/teams/", id + "/members", "/teams");
    PrefixUnder("/teams/", id + "/members/" + other, "/teams");
    PrefixUnder("/badges/", id, "/badges");
    assert "/members/" + id + "/badges" == "/members/" + (id + "/badges");
    assert "/members/" + id + "/badges/" + other == "/members/" + (id + "/badges/" + other);
    assert "/teams/" + id + "/members" == "/teams/" + (id + "/members");
    assert "/teams/" + id + "/members/" + other == "/teams/" + (id + "/members/" + other);
  }

  lemma PrefixUnder(p: string, rest: string, root: string)
    requires p == root + "/"
    ensures Under(p + rest, root)
  {
    assert (p + rest)[|root|] == p[|root|];
  }
}
