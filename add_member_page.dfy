/** The add-member form's state updates and its submit guard. The form
    state is a value; each handler maps the previous state to the next one. */
module AddMemberPage {
  import opened Js

  datatype FormData = FormData(
    name: string,
    email: string,
    role: string,
    teamId: string,
    isOnCall: bool,
    badges: seq<string>)

  /** The state the form starts in. */
  const Initial: FormData := FormData("", "", "", "", false, [])

  /** The form's text fields: name and e-mail are inputs handled by
      `handleChange`, role and team are selects handled by `handleSelectChange`. */
  datatype TextField = Name | Email | Role | TeamId

  /** `{ ...prev, [name]: value }` for a text field. */
  function SetText(f: FormData, field: TextField, value: string): FormData {
    match field
    case Name => f.(name := value)
    case Email => f.(email := value)
    case Role => f.(role := value)
    case TeamId => f.(teamId := value)
  }

  function TextOf(f: FormData, field: TextField): string {
    match field
    case Name => f.name
    case Email => f.email
    case Role => f.role
    case TeamId => f.teamId
  }

  /** `handleCheckboxChange("isOnCall", checked)`. */
  function SetOnCall(f: FormData, checked: bool): FormData {
    f.(isOnCall := checked)
  }

  /** Setting a text field changes that field to the value and nothing else. */
  lemma SetTextChangesOnlyItsField(f: FormData, field: TextField, value: string)
    ensures TextOf(SetText(f, field, value), field) == value
    ensures forall other :: other != field ==> TextOf(SetText(f, field, value), other) == TextOf(f, other)
    ensures SetText(f, field, value).isOnCall == f.isOnCall && SetText(f, field, value).badges == f.badges
    ensures SetText(SetText(f, field, value), field, TextOf(f, field)) == f
  {
  }

  /** The checkbox changes the on-call flag and nothing else. */
  lemma SetOnCallChangesOnlyItsField(f: FormData, checked: bool)
    ensures SetOnCall(f, checked).isOnCall == checked
    ensures forall field :: TextOf(SetOnCall(f, checked), field) == TextOf(f, field)
    ensures SetOnCall(f, checked).badges == f.badges
  {
  }

  /** The test of `badges.filter((b) => b !== badge)`. */
  function Other(badge: string): string -> bool {
    b => b != badge
  }

  /** `handleBadgeToggle`: a badge in the list is removed, every occurrence
      of it; any other badge is appended. */
  function Toggle(badges: seq<string>, badge: string): seq<string> {
    if badge in badges then Filter(badges, Other(badge)) else badges + [badge]
  }

  predicate Distinct(s: seq<string>) {
    forall i, j :: 0 <= i < j < |s| ==> s[i] != s[j]
  }

  /** A badge not yet chosen goes at the end; a chosen one disappears and the
      others keep their order. */
  lemma ToggleContract(badges: seq<string>, badge: string)
    ensures badge !in badges ==> Toggle(badges, badge) == badges + [badge]
    ensures badge in Toggle(badges, badge) <==> badge !in badges
    ensures forall b :: b != badge ==> (b in Toggle(badges, badge) <==> b in badges)
    ensures |Toggle(badges, badge)| < |badges| <==> badge in badges
  {
    var r := Toggle(badges, badge);
    if badge in badges {
      var i :| 0 <= i < |badges| && badges[i] == badge;
      assert badges == badges[..i] + [badge] + badges[i + 1..];
      FilterConcat(badges[..i] + [badge], badges[i + 1..], Other(badge));
      FilterConcat(badges[..i], [badge], Other(badge));
      assert Filter([badge], Other(badge)) == [];
    }
    forall b | b != badge ensures b in r <==> b in badges {
      if b in badges && badge in badges {
        var i :| 0 <= i < |badges| && badges[i] == b;
      }
    }
  }

  /** Removing a chosen badge keeps the others in their order. */
  lemma ToggleRemovesInOrder(before: seq<string>, badge: string, after: seq<string>)
    requires badge !in before && badge !in after
    ensures Toggle(before + [badge] + after, badge) == before + after
  {
    var p := Other(badge);
    var front := before + [badge];
    assert badge in front + after by {
      assert (front + after)[|before|] == badge;
    }
    assert Filter(front, p) == before by {
      FilterConcat(before, [badge], p);
      assert Filter([badge], p) == [];
      FilterAll(before, p);
    }
    assert Filter(after, p) == after by {
      FilterAll(after, p);
    }
    FilterConcat(front, after, p);
  }

  /** Toggling keeps the list free of duplicates. */
  lemma ToggleKeepsDistinct(badges: seq<string>, badge: string)
    requires Distinct(badges)
    ensures Distinct(Toggle(badges, badge))
  {
    if badge in badges {
      FilterKeepsDistinct(badges, Other(badge));
    }
  }

  lemma {:induction false} FilterKeepsDistinct(s: seq<string>, p: string -> bool)
    requires Distinct(s)
    ensures Distinct(Filter(s, p))
    decreases |s|
  {
    if s != [] {
      FilterKeepsDistinct(s[1..], p);
      var tail := Filter(s[1..], p);
      assert s[0] !in s[1..];
      assert forall i :: 0 <= i < |tail| ==> tail[i] != s[0];
      var r := Filter(s, p);
      assert r == (if p(s[0]) then [s[0]] else []) + tail;
    }
  }

  /** Toggling a badge that was not chosen twice restores the list. */
  lemma ToggleTwiceRestores(badges: seq<string>, badge: string)
    requires badge !in badges
    ensures Toggle(Toggle(badges, badge), badge) == badges
  {
    var once := badges + [badge];
    assert badge in once;
    FilterConcat(badges, [badge], Other(badge));
    FilterAll(badges, Other(badge));
    assert Filter([badge], Other(badge)) == [];
  }

  // ---------------------------------------------------------------------
  // Submit
  // ---------------------------------------------------------------------

  /** What `handleSubmit` does with the form. */
  datatype Submission = Rejected | Sent(payload: FormData)

  /** `!name || !email || !role || !teamId` rejects; otherwise the whole
      form is sent to `addMember`. */
  function Submit(f: FormData): Submission {
    if f.name == "" || f.email == "" || f.role == "" || f.teamId == "" then Rejected else Sent(f)
  }

  /** The form is sent, unchanged, exactly when the four text fields are
      filled in; the on-call flag and the badges play no part. */
  lemma SubmitContract(f: FormData, onCall: bool, badges: seq<string>)
    ensures Submit(f).Sent? <==> forall field :: TextOf(f, field) != ""
    ensures Submit(f).Sent? ==> Submit(f).payload == f
    ensures Submit(f.(isOnCall := onCall, badges := badges)).Sent? == Submit(f).Sent?
    ensures Submit(Initial).Rejected?
  {
    if Submit(f).Rejected? {
      assert TextOf(f, Name) == "" || TextOf(f, Email) == "" || TextOf(f, Role) == "" || TextOf(f, TeamId) == "";
    }
  }
}
