/** The members page's list logic: which of the members the API returned
    are shown for the search text and the role and team filters, and the
    initials drawn for each member's name. */
module MembersPage {
  import opened Js
  import opened MemberRoutes

  /** The search test: an empty query passes everyone; otherwise the
      lowercased query must occur in the lowercased name or e-mail. */
  predicate MatchesSearch(m: MemberView, query: string) {
    query == "" || Includes(Lower(m.name), Lower(query)) || Includes(Lower(m.email), Lower(query))
  }

  /** A filter that is not set (`null`) admits every value. */
  predicate MatchesFilter(value: string, filter: Option<string>) {
    filter.None? || value == filter.value
  }

  predicate Shown(m: MemberView, query: string, role: Option<string>, team: Option<string>) {
    MatchesSearch(m, query) && MatchesFilter(m.role, role) && MatchesFilter(m.teamId, team)
  }

  /** `filteredMembers`. */
  function FilteredMembers(members: seq<MemberView>, query: string, role: Option<string>, team: Option<string>): seq<MemberView> {
    Filter(members, m => Shown(m, query, role, team))
  }

  /** A member is shown exactly when it is in the list and passes the three
      tests; the shown members keep their order, and there are never more
      of them than members. */
  lemma FilteredMembersContract(members: seq<MemberView>, more: seq<MemberView>, query: string, role: Option<string>, team: Option<string>)
    ensures forall i :: 0 <= i < |FilteredMembers(members, query, role, team)| ==>
      FilteredMembers(members, query, role, team)[i] in members && Shown(FilteredMembers(members, query, role, team)[i], query, role, team)
    ensures forall i :: 0 <= i < |members| && Shown(members[i], query, role, team) ==>
      members[i] in FilteredMembers(members, query, role, team)
    ensures FilteredMembers(members + more, query, role, team) ==
      FilteredMembers(members, query, role, team) + FilteredMembers(more, query, role, team)
    ensures |FilteredMembers(members, query, role, team)| <= |members|
  {
    FilterConcat(members, more, m => Shown(m, query, role, team));
  }

  /** With no search text and no filter every member is shown, in order. */
  lemma NoFilterShowsAll(members: seq<MemberView>)
    ensures FilteredMembers(members, "", None, None) == members
  {
    FilterAll(members, m => Shown(m, "", None, None));
  }

  /** The search ignores the letter case of the ASCII letters, and an exact
      occurrence of the query in the name or e-mail always passes. */
  lemma SearchIgnoresCase(m: MemberView, query: string)
    ensures MatchesSearch(m, query) <==> MatchesSearch(m, Lower(query))
    ensures Includes(m.name, query) || Includes(m.email, query) ==> MatchesSearch(m, query)
  {
    assert Lower(Lower(query)) == Lower(query);
    assert Lower(query) == "" <==> query == "";
    if Includes(m.name, query) { LowerKeepsIncludes(m.name, query); }
    if Includes(m.email, query) { LowerKeepsIncludes(m.email, query); }
  }

  /** Setting the role filter narrows the result: it is the unfiltered
      result with the members of other roles removed, hence never longer. */
  lemma RoleFilterNarrows(members: seq<MemberView>, query: string, role: string, team: Option<string>)
    ensures FilteredMembers(members, query, Some(role), team) ==
      Filter(FilteredMembers(members, query, None, team), (m: MemberView) => m.role == role)
    ensures |FilteredMembers(members, query, Some(role), team)| <= |FilteredMembers(members, query, None, team)|
  {
    FilterTwice(members, m => Shown(m, query, None, team), (m: MemberView) => m.role == role, m => Shown(m, query, Some(role), team));
  }

  /** The same for the team filter. */
  lemma TeamFilterNarrows(members: seq<MemberView>, query: string, role: Option<string>, team: string)
    ensures FilteredMembers(members, query, role, Some(team)) ==
      Filter(FilteredMembers(members, query, role, None), (m: MemberView) => m.teamId == team)
    ensures |FilteredMembers(members, query, role, Some(team))| <= |FilteredMembers(members, query, role, None)|
  {
    FilterTwice(members, m => Shown(m, query, role, None), (m: MemberView) => m.teamId == team, m => Shown(m, query, role, Some(team)));
  }

  /** The same for the search text. */
  lemma SearchNarrows(members: seq<MemberView>, query: string, role: Option<string>, team: Option<string>)
    ensures FilteredMembers(members, query, role, team) ==
      Filter(FilteredMembers(members, "", role, team), m => MatchesSearch(m, query))
    ensures |FilteredMembers(members, query, role, team)| <= |FilteredMembers(members, "", role, team)|
  {
    FilterTwice(members, m => Shown(m, "", role, team), m => MatchesSearch(m, query), m => Shown(m, query, role, team));
  }

  // ---------------------------------------------------------------------
  // Initials
  // ---------------------------------------------------------------------

  /** `.map((n) => n[0]).join("")`: an empty piece's `n[0]` is undefined,
      which `join` renders as nothing. */
  function FirstChars(pieces: seq<string>): string
    decreases |pieces|
  {
    if pieces == [] then ""
    else (if pieces[0] == "" then "" else [pieces[0][0]]) + FirstChars(pieces[1..])
  }

  /** `name.split(" ").map((n) => n[0]).join("")`. */
  function Initials(name: string): string {
    FirstChars(Split(name))
  }

  /** The number of non-empty pieces. */
  function Words(pieces: seq<string>): nat
    decreases |pieces|
  {
    if pieces == [] then 0 else (if pieces[0] == "" then 0 else 1) + Words(pieces[1..])
  }

  /** One initial per non-empty piece, each the piece's first character,
      and no initial is a space. */
  lemma {:induction false} FirstCharsContract(pieces: seq<string>)
    requires forall i :: 0 <= i < |pieces| ==> ' ' !in pieces[i]
    ensures |FirstChars(pieces)| == Words(pieces)
    ensures ' ' !in FirstChars(pieces)
    ensures forall c :: c in FirstChars(pieces) ==> exists i :: 0 <= i < |pieces| && pieces[i] != "" && pieces[i][0] == c
    decreases |pieces|
  {
    if pieces != [] {
      FirstCharsContract(pieces[1..]);
      var head := if pieces[0] == "" then "" else [pieces[0][0]];
      assert FirstChars(pieces) == head + FirstChars(pieces[1..]);
      if pieces[0] != "" { assert pieces[0][0] in pieces[0]; }
      forall c | c in FirstChars(pieces) ensures exists i :: 0 <= i < |pieces| && pieces[i] != "" && pieces[i][0] == c {
        if c in head {
          assert pieces[0] != "" && pieces[0][0] == c;
        } else {
          var i :| 0 <= i < |pieces[1..]| && pieces[1..][i] != "" && pieces[1..][i][0] == c;
          assert pieces[i + 1] == pieces[1..][i];
        }
      }
    }
  }

  lemma {:induction false} FirstCharsConcat(a: seq<string>, b: seq<string>)
    ensures FirstChars(a + b) == FirstChars(a) + FirstChars(b)
    decreases |a|
  {
    if a != [] {
      assert (a + b)[1..] == a[1..] + b;
      FirstCharsConcat(a[1..], b);
    } else {
      assert a + b == b;
    }
  }

  /** The initials of a name are one character per word, each a word's
      first character and never a space. */
  lemma InitialsContract(name: string)
    ensures |Initials(name)| == Words(Split(name))
    ensures ' ' !in Initials(name)
    ensures forall c :: c in Initials(name) ==> c in name
    ensures name != "" && name[0] != ' ' ==> Initials(name)[0] == name[0]
  {
    FirstCharsContract(Split(name));
    forall c | c in Initials(name) ensures c in name {
      var i :| 0 <= i < |Split(name)| && Split(name)[i] != "" && Split(name)[i][0] == c;
      PieceInName(name, i);
    }
    if name != "" && name[0] != ' ' {
      assert Split(name)[0] == [name[0]] + Split(name[1..])[0];
    }
  }

  /** Every character of a piece comes from the string. */
  lemma {:induction false} PieceInName(name: string, i: int)
    requires 0 <= i < |Split(name)|
    ensures forall c :: c in Split(name)[i] ==> c in name
    decreases |name|
  {
    if name != [] {
      var rest := Split(name[1..]);
      forall c | c in Split(name)[i] ensures c in name {
        if name[0] == ' ' {
          if i > 0 {
            PieceInName(name[1..], i - 1);
            assert c in name[1..];
          }
        } else if i == 0 {
          PieceInName(name[1..], 0);
          assert c == name[0] || c in rest[0];
        } else {
          PieceInName(name[1..], i);
          assert c in name[1..];
        }
      }
    }
  }

  /** A space between two parts of a name: the initials are those of the
      first part followed by those of the second, so repeated, leading or
      trailing spaces add nothing. */
  lemma InitialsAtSpace(a: string, b: string)
    ensures Initials(a + " " + b) == Initials(a) + Initials(b)
  {
    SplitAtSpace(a, b);
    FirstCharsConcat(Split(a), Split(b));
  }
}
