/**
 * The profile page: the edit form is filled from the stored profile (lists
 * rendered as comma-separated text, the role defaulting to `mentee`) and
 * submitted with the list fields parsed back.
 */
module ProfilePage {
  import opened Platform
  import opened CommaList

  /** The stored profile as the page receives it. */
  datatype StoredProfile = StoredProfile(
    bio: Option<string>,
    role: Option<string>,
    skills: Option<seq<string>>,
    interests: Option<seq<string>>,
    experience: Option<string>)

  /** The edit form: every field is text. */
  datatype ProfileForm = ProfileForm(bio: string, role: string, skills: string, interests: string, experience: string)

  /** The body sent on submission: the list fields as lists. */
  datatype ProfileUpdate = ProfileUpdate(
    bio: string, role: string, skills: seq<string>, interests: seq<string>, experience: string)

  /** The role offered before a profile is loaded. */
  const DefaultRole := "mentee"

  /** `role || 'mentee'`: an absent or empty role shows as `mentee`. */
  function RoleOrDefault(role: Option<string>): (r: string)
    ensures role.None? || role.value == "" ==> r == DefaultRole
    ensures role.Some? && role.value != "" ==> r == role.value
    ensures r != ""
  {
    if role.Some? && role.value != "" then role.value else DefaultRole
  }

  /** The form before any profile is loaded. */
  function InitialForm(): (f: ProfileForm)
    ensures f.role == DefaultRole && f.bio == f.skills == f.interests == f.experience == ""
  {
    ProfileForm("", DefaultRole, "", "", "")
  }

  /** `fetchProfile`: the form filled from a stored profile. */
  function FormFromProfile(p: StoredProfile): (f: ProfileForm)
    ensures f.bio == TextOrEmpty(p.bio) && f.experience == TextOrEmpty(p.experience)
    ensures f.role == RoleOrDefault(p.role)
    ensures f.skills == Render(p.skills) && f.interests == Render(p.interests)
    ensures p.skills.None? ==> f.skills == ""
    ensures p.interests.None? ==> f.interests == ""
  {
    ProfileForm(TextOrEmpty(p.bio), RoleOrDefault(p.role), Render(p.skills), Render(p.interests),
                TextOrEmpty(p.experience))
  }

  /** `handleSubmit`: the form with its list fields parsed. */
  function Submission(f: ProfileForm): (u: ProfileUpdate)
    ensures forall k :: 0 <= k < |u.skills| ==> IsCleanEntry(u.skills[k])
    ensures forall k :: 0 <= k < |u.interests| ==> IsCleanEntry(u.interests[k])
    ensures u.bio == f.bio && u.role == f.role && u.experience == f.experience
    ensures u.skills == Parse(f.skills) && u.interests == Parse(f.interests)
  {
    ParseClean(f.skills);
    ParseClean(f.interests);
    ProfileUpdate(f.bio, f.role, Parse(f.skills), Parse(f.interests), f.experience)
  }

  /** The lists of a stored profile, a null list read as empty. */
  function ListOrEmpty(list: Option<seq<string>>): seq<string>
  {
    if list.Some? then list.value else []
  }

  /** A null list, or one whose every entry is clean. */
  predicate CleanList(list: Option<seq<string>>)
  {
    list.Some? ==> forall k :: 0 <= k < |list.value| ==> IsCleanEntry(list.value[k])
  }

  /** A stored list of clean entries survives rendering and parsing; a null list becomes empty. */
  lemma ListRoundTrip(list: Option<seq<string>>)
    requires CleanList(list)
    ensures Parse(Render(list)) == ListOrEmpty(list)
  {
    if list.Some? { ParseRender(list.value); } else { ParseEmpty(""); }
  }

  /**
   * Opening the editor and saving without a change stores the same lists,
   * when every stored entry is clean (not empty, trimmed, comma-free); a
   * null list comes back empty, and an absent role comes back as `mentee`.
   */
  lemma UnchangedEditKeepsProfile(p: StoredProfile)
    requires CleanList(p.skills)
    requires CleanList(p.interests)
    ensures var u := Submission(FormFromProfile(p));
      && u.skills == ListOrEmpty(p.skills)
      && u.interests == ListOrEmpty(p.interests)
      && u.role == RoleOrDefault(p.role)
  {
    SkillsSurviveEdit(p);
    InterestsSurviveEdit(p);
  }

  /** The skills sent after an unchanged edit are the stored ones. */
  lemma SkillsSurviveEdit(p: StoredProfile)
    requires CleanList(p.skills)
    ensures Submission(FormFromProfile(p)).skills == ListOrEmpty(p.skills)
  {
    ListRoundTrip(p.skills);
  }

  /** The interests sent after an unchanged edit are the stored ones. */
  lemma InterestsSurviveEdit(p: StoredProfile)
    requires CleanList(p.interests)
    ensures Submission(FormFromProfile(p)).interests == ListOrEmpty(p.interests)
  {
    ListRoundTrip(p.interests);
  }

  /** Submitting the initial form sends role `mentee` and two empty lists. */
  lemma InitialSubmission()
    ensures Submission(InitialForm()) == ProfileUpdate("", DefaultRole, [], [], "")
  {
    ParseEmpty("");
  }
}
