/**
 * The team projects page: the project form (reset, prefilled for editing,
 * submitted with the required roles parsed), the status label and the
 * required-roles summary on each card, and the empty state of each tab.
 */
module TeamsPage {
  import opened Platform
  import opened CommaList
  import Seqs

  /** A team project as the page receives it. */
  datatype TeamProject = TeamProject(
    id: int,
    title: string,
    description: Option<string>,
    genre: Option<string>,
    projectType: string,
    status: string,
    budget: Option<string>,
    deadline: Option<string>,
    location: Option<string>,
    requiredRoles: Option<seq<string>>)

  /** The project form: every field is text. */
  datatype ProjectForm = ProjectForm(
    title: string, description: string, genre: string, projectType: string,
    budget: string, deadline: string, location: string, requiredRoles: string)

  /**
   * The body sent on submission. `budget` is the text handed to `parseInt`,
   * or `None` for null.
   */
  datatype ProjectSubmission = ProjectSubmission(
    title: string, description: string, genre: string, projectType: string,
    budget: Option<string>, deadline: string, location: string, requiredRoles: seq<string>)

  /** The project type a fresh form starts with. */
  const DefaultProjectType := "court_metrage"

  /** `resetForm`, and the form's initial state. */
  function ResetForm(): (f: ProjectForm)
    ensures f.projectType == DefaultProjectType
    ensures f.title == f.description == f.genre == f.budget == f.deadline == f.location == f.requiredRoles == ""
  {
    ProjectForm("", "", "", DefaultProjectType, "", "", "", "")
  }

  /** The date part of an ISO timestamp: the text before its first `T`. */
  function DatePart(iso: string): (d: string)
    ensures d <= iso && 'T' !in d
    ensures |d| == |iso| || iso[|d|] == 'T'
  {
    JoinSplit(iso, 'T');
    var parts := Split(iso, 'T');
    assert Join(parts, ['T']) == iso;
    if |parts| == 1 then parts[0]
    else
      assert iso == parts[0] + ['T'] + Join(parts[1..], ['T']);
      assert iso[|parts[0]|] == 'T';
      parts[0]
  }

  /** The date of an ISO timestamp `date` + `T` + `time` is `date`, whatever the time part holds. */
  lemma DatePartOfTimestamp(date: string, time: string)
    requires 'T' !in date
    ensures DatePart(date + "T" + time) == date
  {
    var iso := date + "T" + time;
    var d := DatePart(iso);
    assert iso[|date|] == 'T';
    assert d == iso[..|d|] && date == iso[..|date|];
  }

  /** `startEdit`: the form prefilled from a project; the deadline is taken as an ISO timestamp. */
  function StartEdit(p: TeamProject): (f: ProjectForm)
    ensures f.title == p.title && f.projectType == p.projectType
    ensures f.requiredRoles == Render(p.requiredRoles)
    ensures p.requiredRoles.None? ==> f.requiredRoles == ""
    ensures p.deadline.None? ==> f.deadline == ""
    ensures p.deadline.Some? ==> f.deadline == DatePart(p.deadline.value)
  {
    ProjectForm(p.title, TextOrEmpty(p.description), TextOrEmpty(p.genre), p.projectType,
                TextOrEmpty(p.budget),
                if p.deadline.Some? then DatePart(p.deadline.value) else "",
                TextOrEmpty(p.location), Render(p.requiredRoles))
  }

  /** `handleSubmit`: an empty budget is sent as null, the roles are parsed. */
  function Submit(f: ProjectForm): (s: ProjectSubmission)
    ensures s.budget.None? <==> f.budget == ""
    ensures s.budget.Some? ==> s.budget.value == f.budget
    ensures forall k :: 0 <= k < |s.requiredRoles| ==> IsCleanEntry(s.requiredRoles[k])
    ensures s.requiredRoles == Parse(f.requiredRoles)
    ensures Seqs.IsSubsequence(s.requiredRoles, TrimAll(Split(f.requiredRoles, ',')))
  {
    ParseClean(f.requiredRoles);
    ParseKeepsOrder(f.requiredRoles);
    ProjectSubmission(f.title, f.description, f.genre, f.projectType,
                      if f.budget == "" then None else Some(f.budget),
                      f.deadline, f.location, Parse(f.requiredRoles))
  }

  /** Submitting a reset form sends no budget and no roles, with the default project type. */
  lemma ResetSubmission()
    ensures var s := Submit(ResetForm());
      s.budget.None? && s.requiredRoles == [] && s.projectType == DefaultProjectType
  {
    ParseEmpty("");
  }

  /**
   * Editing a project and saving without a change sends back its required
   * roles when every role is clean; a null list is sent as the empty list.
   */
  lemma UnchangedEditKeepsRoles(p: TeamProject)
    requires p.requiredRoles.Some? ==>
      forall k :: 0 <= k < |p.requiredRoles.value| ==> IsCleanEntry(p.requiredRoles.value[k])
    ensures Submit(StartEdit(p)).requiredRoles == (if p.requiredRoles.Some? then p.requiredRoles.value else [])
  {
    if p.requiredRoles.Some? { ParseRender(p.requiredRoles.value); } else { ParseEmpty(""); }
  }

  /** The status badge text. */
  function StatusLabel(status: string): (text: string)
    ensures status == "recruiting" <==> text == "Recrute"
    ensures status == "in_progress" <==> text == "En cours"
    ensures status != "recruiting" && status != "in_progress" <==> text == "Terminé"
  {
    if status == "recruiting" then "Recrute"
    else if status == "in_progress" then "En cours"
    else "Terminé"
  }

  /** The required-roles block of a card: absent, or the chips shown and the "+N" overflow badge. */
  datatype RolesBlock = NoRoles | Roles(chips: seq<string>, more: Option<nat>)

  /** How many roles are shown as chips. */
  const ChipLimit := 3

  function RolesSummary(roles: Option<seq<string>>): (b: RolesBlock)
    ensures b.NoRoles? <==> roles.None? || roles.value == []
    ensures b.Roles? ==> b.chips <= roles.value && |b.chips| == if |roles.value| < ChipLimit then |roles.value| else ChipLimit
    ensures b.Roles? ==> (b.more.Some? <==> |roles.value| > ChipLimit)
    ensures b.Roles? ==> |b.chips| + (if b.more.Some? then b.more.value else 0) == |roles.value|
  {
    if roles.None? || roles.value == [] then NoRoles
    else
      var xs := roles.value;
      Roles(if |xs| <= ChipLimit then xs else xs[..ChipLimit],
            if |xs| > ChipLimit then Some(|xs| - ChipLimit) else None)
  }

  /** The two tabs of the page. */
  datatype Tab = Browse | MyProjects

  /** The empty state block; the call to create a project appears only on the member's own tab. */
  datatype EmptyState = EmptyState(title: string, offersCreate: bool)

  /** `(activeTab === 'browse' ? projects : myProjects).length === 0`, and what the block says. */
  function EmptyStateOf(tab: Tab, projects: seq<TeamProject>, myProjects: seq<TeamProject>): (e: Option<EmptyState>)
    ensures e.Some? <==> (tab == Browse && projects == []) || (tab == MyProjects && myProjects == [])
    ensures e.Some? ==> (e.value.offersCreate <==> tab == MyProjects)
  {
    match tab
    case Browse => if |projects| == 0 then Some(EmptyState("Aucun projet disponible", false)) else None
    case MyProjects => if |myProjects| == 0 then Some(EmptyState("Vous n'avez pas de projet", true)) else None
  }

  /** The empty state on one tab does not depend on the other tab's list. */
  lemma EmptyStateIgnoresOtherTab(projects: seq<TeamProject>, myProjects: seq<TeamProject>,
                                  others: seq<TeamProject>)
    ensures EmptyStateOf(Browse, projects, myProjects) == EmptyStateOf(Browse, projects, others)
    ensures EmptyStateOf(MyProjects, projects, myProjects) == EmptyStateOf(MyProjects, others, myProjects)
  {
  }
}
