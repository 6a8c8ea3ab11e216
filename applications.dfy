/**
 * Applying to a team project: a chain of guards (signed in, known member,
 * existing project, project still recruiting, no earlier application by the
 * same member to the same project) followed by one insert into the
 * `teamApplications` table.
 */
module Applications {
  import opened Platform

  /** A row of `teamProjects`: the fields the admission guards read. */
  datatype Project = Project(id: int, status: string)

  /** A row of `teamApplications`. */
  datatype Application = Application(
    projectId: int,
    applicantId: int,
    appliedRole: string,
    message: Option<string>,
    status: string)

  /** `select().from(teamProjects).where(eq(teamProjects.id, id)).limit(1)`. */
  function FindProject(projects: seq<Project>, id: int): (r: Option<Project>)
    ensures r.Some? <==> exists i :: 0 <= i < |projects| && projects[i].id == id
    ensures r.Some? ==> r.value in projects && r.value.id == id
  {
    FindFirst(projects, (p: Project) => p.id == id)
  }

  /** Whether `applicantId` already has an application to `projectId`. */
  predicate HasApplied(applications: seq<Application>, projectId: int, applicantId: int)
  {
    exists i :: 0 <= i < |applications|
      && applications[i].projectId == projectId && applications[i].applicantId == applicantId
  }

  /** The duplicate lookup: the first application of the pair, if any. */
  function FindApplication(applications: seq<Application>, projectId: int, applicantId: int)
    : (r: Option<Application>)
    ensures r.Some? <==> HasApplied(applications, projectId, applicantId)
  {
    FindFirst(applications, (a: Application) => a.projectId == projectId && a.applicantId == applicantId)
  }

  /** `message || null`: an absent or empty message is stored as null. */
  function StoredMessage(message: Option<string>): (r: Option<string>)
    ensures r.Some? <==> message.Some? && message.value != ""
    ensures r.Some? ==> r == message
  {
    if message.Some? && message.value != "" then message else None
  }

  /** The table invariant the duplicate guard keeps: one application per (project, applicant). */
  ghost predicate OnePerPair(applications: seq<Application>)
  {
    forall i, j :: 0 <= i < j < |applications| ==>
      !(applications[i].projectId == applications[j].projectId
        && applications[i].applicantId == applications[j].applicantId)
  }

  /** Appending a row for a pair that has none keeps one application per pair. */
  lemma AppendKeepsOnePerPair(applications: seq<Application>, row: Application)
    requires OnePerPair(applications)
    requires !HasApplied(applications, row.projectId, row.applicantId)
    ensures OnePerPair(applications + [row])
  {
    var t := applications + [row];
    forall i, j | 0 <= i < j < |t|
      ensures !(t[i].projectId == t[j].projectId && t[i].applicantId == t[j].applicantId)
    {
      if j == |applications| {
        assert t[i] == applications[i];
      } else {
        assert t[i] == applications[i] && t[j] == applications[j];
      }
    }
  }

  /** After a successful application, the same member applying again to the same project is refused. */
  lemma AppliedAfterAppend(applications: seq<Application>, row: Application)
    ensures HasApplied(applications + [row], row.projectId, row.applicantId)
  {
    assert (applications + [row])[|applications|] == row;
  }

  /** The `teamApplications` table. */
  class ApplicationTable {
    var applications: seq<Application>

    constructor (initial: seq<Application>)
      ensures applications == initial
    {
      applications := initial;
    }

    /**
     * `POST /api/team-applications` for the member signed in as `subject`.
     * `users` and `projects` are the current `users` and `teamProjects` tables.
     */
    method Apply(users: seq<User>, projects: seq<Project>, subject: Option<string>,
                 projectId: int, appliedRole: string, message: Option<string>)
      returns (status: Outcome)
      modifies this
      ensures subject.None? ==> status == Unauthorized
      ensures subject.Some? && CurrentProfile(users, subject).None? ==> status == NotFound
      ensures CurrentProfile(users, subject).Some? && FindProject(projects, projectId).None? ==>
        status == NotFound
      ensures (CurrentProfile(users, subject).Some? && FindProject(projects, projectId).Some?
               && FindProject(projects, projectId).value.status != "recruiting") ==> status == BadRequest
      ensures (CurrentProfile(users, subject).Some? && FindProject(projects, projectId).Some?
               && FindProject(projects, projectId).value.status == "recruiting"
               && HasApplied(old(applications), projectId, CurrentProfile(users, subject).value.id)) ==>
        status == BadRequest
      ensures status != Ok ==> applications == old(applications)
      ensures status == Ok <==>
        CurrentProfile(users, subject).Some? && FindProject(projects, projectId).Some?
        && FindProject(projects, projectId).value.status == "recruiting"
        && !HasApplied(old(applications), projectId, CurrentProfile(users, subject).value.id)
      ensures status == Ok ==>
        applications == old(applications) + [Application(projectId, CurrentProfile(users, subject).value.id,
                                                         appliedRole, StoredMessage(message), "pending")]
      ensures OnePerPair(old(applications)) ==> OnePerPair(applications)
    {
      if subject.None? {
        return Unauthorized;
      }
      var profile := FindByClerkId(users, subject.value);
      if profile.None? {
        return NotFound;
      }
      var userId := profile.value.id;
      var project := FindProject(projects, projectId);
      if project.None? {
        return NotFound;
      }
      if project.value.status != "recruiting" {
        return BadRequest;
      }
      var existing := FindApplication(applications, projectId, userId);
      if existing.Some? {
        return BadRequest;
      }
      var row := Application(projectId, userId, appliedRole, StoredMessage(message), "pending");
      if OnePerPair(applications) {
        AppendKeepsOnePerPair(applications, row);
      }
      applications := applications + [row];
      status := Ok;
    }
  }
}
