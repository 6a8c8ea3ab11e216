/**
 * Mentorship sessions: the route that schedules a session (choosing who is
 * mentor and who is mentee from the requester's role) and lists the
 * requester's sessions with an `isMentor` flag.
 */
module MentorshipRoute {
  import opened Platform
  import Seqs

  /** A row of `mentorshipSessions`; `scheduledAt` is an instant in milliseconds. */
  datatype Session = Session(mentorId: int, menteeId: int, scheduledAt: int, status: string, notes: Option<string>)

  /** A listed session as the route returns it: the session, `isMentor` and the two joined names. */
  datatype SessionView = SessionView(session: Session, isMentor: bool, mentorName: Option<string>, menteeName: Option<string>)

  /**
   * The (mentorId, menteeId) pair stored when a member with role `role` and
   * id `userId` schedules a session with `connectedUserId`.
   */
  function Slots(role: string, userId: int, connectedUserId: int): (slots: (int, int))
    ensures role == "mentor" ==> slots == (userId, connectedUserId)
    ensures role == "mentee" ==> slots == (connectedUserId, userId)
    ensures role != "mentor" && role != "mentee" ==> slots == (connectedUserId, connectedUserId)
  {
    var mentorId := if role == "mentor" then userId else connectedUserId;
    var menteeId := if role == "mentee" then userId else connectedUserId;
    (mentorId, menteeId)
  }

  /**
   * The requester occupies a slot of the new session exactly when their
   * role is `mentor` or `mentee`, or they named themselves.
   */
  lemma RequesterTakesPart(role: string, userId: int, connectedUserId: int)
    ensures var slots := Slots(role, userId, connectedUserId);
      (slots.0 == userId || slots.1 == userId)
      <==> (role == "mentor" || role == "mentee" || connectedUserId == userId)
  {
  }

  /** Whether member `userId` is the mentor or the mentee of `s`. */
  predicate Involves(s: Session, userId: int)
  {
    s.mentorId == userId || s.menteeId == userId
  }

  /** `users.name` of the member with id `id`, as a join on `users.id` finds it; null when no row has the id. */
  function NameOf(users: seq<User>, id: int): (name: Option<string>)
    ensures name.Some? <==> exists i :: 0 <= i < |users| && users[i].id == id
    ensures name.Some? ==> exists i :: 0 <= i < |users| && users[i].id == id && users[i].name == name.value
  {
    match FindFirst(users, (u: User) => u.id == id)
    case None => None
    case Some(u) => Some(u.name)
  }

  /** The listed row of `s` for viewer `userId`, with the mentor's and the mentee's own names. */
  function View(s: Session, users: seq<User>, userId: int): SessionView
  {
    SessionView(s, s.mentorId == userId, NameOf(users, s.mentorId), NameOf(users, s.menteeId))
  }

  /**
   * The participant join followed by
   * `sessions.map(session => ({ ...session, isMentor: session.mentorId === userId }))`:
   * one view per session, each name taken from that participant's own row.
   */
  function Enrich(sessions: seq<Session>, users: seq<User>, userId: int): (views: seq<SessionView>)
    ensures |views| == |sessions|
    ensures forall i :: 0 <= i < |views| ==>
      && views[i].session == sessions[i]
      && (views[i].isMentor <==> sessions[i].mentorId == userId)
      && views[i].mentorName == NameOf(users, sessions[i].mentorId)
      && views[i].menteeName == NameOf(users, sessions[i].menteeId)
  {
    if sessions == [] then []
    else [View(sessions[0], users, userId)] + Enrich(sessions[1..], users, userId)
  }

  /** The sessions the `where` clause keeps for `userId`, in table order. */
  function SessionsOf(sessions: seq<Session>, userId: int): (r: seq<Session>)
    ensures forall i :: 0 <= i < |r| ==> r[i] in sessions && Involves(r[i], userId)
    ensures forall i :: 0 <= i < |sessions| && Involves(sessions[i], userId) ==> sessions[i] in r
    ensures Seqs.IsSubsequence(r, sessions)
  {
    Seqs.FilterIsSubsequence(sessions, s => Involves(s, userId));
    Seqs.Filter(sessions, s => Involves(s, userId))
  }

  /** A listed session in which the viewer is not the mentor has the viewer as mentee. */
  lemma NotMentorMeansMentee(sessions: seq<Session>, users: seq<User>, userId: int, i: int)
    requires 0 <= i < |Enrich(SessionsOf(sessions, userId), users, userId)|
    ensures var v := Enrich(SessionsOf(sessions, userId), users, userId)[i];
      !v.isMentor ==> v.session.menteeId == userId
  {
    var r := SessionsOf(sessions, userId);
    assert Involves(r[i], userId);
  }

  /** The `mentorshipSessions` table. */
  class SessionTable {
    var sessions: seq<Session>

    constructor (initial: seq<Session>)
      ensures sessions == initial
    {
      sessions := initial;
    }

    /**
     * `GET /api/mentorship`: 401 without a signed-in member, an empty list
     * for a member without a profile, otherwise each of the member's
     * sessions once, named after its mentor and its mentee.
     */
    method List(users: seq<User>, subject: Option<string>) returns (status: Outcome, views: seq<SessionView>)
      ensures subject.None? ==> status == Unauthorized && views == []
      ensures subject.Some? ==> status == Ok
      ensures CurrentProfile(users, subject).None? ==> views == []
      ensures CurrentProfile(users, subject).Some? ==>
        var userId := CurrentProfile(users, subject).value.id;
        && views == Enrich(SessionsOf(sessions, userId), users, userId)
        && |views| == |SessionsOf(sessions, userId)|
        && (forall i :: 0 <= i < |views| ==>
              views[i].session in sessions && Involves(views[i].session, userId)
              && (views[i].isMentor <==> views[i].session.mentorId == userId)
              && views[i].mentorName == NameOf(users, views[i].session.mentorId)
              && views[i].menteeName == NameOf(users, views[i].session.menteeId))
        && (forall i :: 0 <= i < |sessions| && Involves(sessions[i], userId) ==>
              exists j :: 0 <= j < |views| && views[j].session == sessions[i])
    {
      if subject.None? {
        return Unauthorized, [];
      }
      var profile := FindByClerkId(users, subject.value);
      if profile.None? {
        return Ok, [];
      }
      var userId := profile.value.id;
      var mine := SessionsOf(sessions, userId);
      views := Enrich(mine, users, userId);
      status := Ok;
      forall i | 0 <= i < |sessions| && Involves(sessions[i], userId)
        ensures exists j :: 0 <= j < |views| && views[j].session == sessions[i]
      {
        var j :| 0 <= j < |mine| && mine[j] == sessions[i];
        assert views[j].session == sessions[i];
      }
    }

    /**
     * `POST /api/mentorship`: 401 without a signed-in member, 404 without a
     * profile, otherwise one `pending` session whose slots follow the
     * requester's role.
     */
    method Schedule(users: seq<User>, subject: Option<string>, connectedUserId: int,
                    scheduledAt: int, notes: Option<string>)
      returns (status: Outcome)
      modifies this
      ensures subject.None? ==> status == Unauthorized
      ensures subject.Some? && CurrentProfile(users, subject).None? ==> status == NotFound
      ensures status == Ok <==> CurrentProfile(users, subject).Some?
      ensures status != Ok ==> sessions == old(sessions)
      ensures status == Ok ==>
        var me := CurrentProfile(users, subject).value;
        var slots := Slots(me.role, me.id, connectedUserId);
        sessions == old(sessions) + [Session(slots.0, slots.1, scheduledAt, "pending", notes)]
    {
      if subject.None? {
        return Unauthorized;
      }
      var profile := FindByClerkId(users, subject.value);
      if profile.None? {
        return NotFound;
      }
      var slots := Slots(profile.value.role, profile.value.id, connectedUserId);
      sessions := sessions + [Session(slots.0, slots.1, scheduledAt, "pending", notes)];
      status := Ok;
    }
  }

  /** A session just scheduled by a mentor or a mentee is listed for them, and `isMentor` matches their role. */
  lemma ScheduledIsListed(sessions: seq<Session>, users: seq<User>, role: string, userId: int,
                          connectedUserId: int, scheduledAt: int, notes: Option<string>)
    requires role == "mentor" || role == "mentee"
    requires userId != connectedUserId
    ensures var slots := Slots(role, userId, connectedUserId);
      var s := Session(slots.0, slots.1, scheduledAt, "pending", notes);
      var views := Enrich(SessionsOf(sessions + [s], userId), users, userId);
      SessionView(s, role == "mentor", NameOf(users, slots.0), NameOf(users, slots.1)) in views
  {
    var slots := Slots(role, userId, connectedUserId);
    var s := Session(slots.0, slots.1, scheduledAt, "pending", notes);
    var all := sessions + [s];
    assert all[|sessions|] == s;
    var mine := SessionsOf(all, userId);
    var j :| 0 <= j < |mine| && mine[j] == s;
    var views := Enrich(mine, users, userId);
    assert views[j] == SessionView(s, role == "mentor", NameOf(users, slots.0), NameOf(users, slots.1));
  }

  /** The members the join condition `or(eq(mentorId, users.id), eq(menteeId, users.id))` pairs with `s`. */
  function Participants(s: Session, users: seq<User>): (r: seq<User>)
    ensures forall i :: 0 <= i < |r| ==> r[i] in users && Involves(s, r[i].id)
    ensures forall i :: 0 <= i < |users| && Involves(s, users[i].id) ==> users[i] in r
  {
    Seqs.Filter(users, (u: User) => Involves(s, u.id))
  }

  /**
   * The rows the listing's join produces for `s`, as written: one row per
   * joined participant (one row with null names when none is found), and
   * both `mentorName` and `menteeName` select `users.name` of that one row.
   */
  function JoinedRows(s: Session, users: seq<User>, userId: int): (rows: seq<SessionView>)
    ensures |rows| == if Participants(s, users) == [] then 1 else |Participants(s, users)|
    ensures forall i :: 0 <= i < |rows| ==>
      rows[i].session == s && (rows[i].isMentor <==> s.mentorId == userId) && rows[i].mentorName == rows[i].menteeName
  {
    var ps := Participants(s, users);
    if ps == [] then [SessionView(s, s.mentorId == userId, None, None)]
    else seq(|ps|, k requires 0 <= k < |ps| => SessionView(s, s.mentorId == userId, Some(ps[k].name), Some(ps[k].name)))
  }

  /** The listing as written: the joined rows of each of the member's sessions, in table order. */
  function ListAsWritten(sessions: seq<Session>, users: seq<User>, userId: int): (views: seq<SessionView>)
    ensures |views| >= |SessionsOf(sessions, userId)|
    ensures forall i :: 0 <= i < |views| ==> views[i].session in sessions && Involves(views[i].session, userId)
  {
    if sessions == [] then []
    else
      var rest := ListAsWritten(sessions[1..], users, userId);
      assert SessionsOf(sessions, userId)
          == (if Involves(sessions[0], userId) then [sessions[0]] else []) + SessionsOf(sessions[1..], userId);
      (if Involves(sessions[0], userId) then JoinedRows(sessions[0], users, userId) else []) + rest
  }
}

/**
 * The mentorship page: the counterpart shown on each session card and the
 * status changes each card offers.
 */
module MentorshipPage {
  import opened Platform
  import opened MentorshipRoute

  /** The name in the card's title; a null name shows as nothing. */
  function Counterpart(view: SessionView): (name: string)
    ensures view.isMentor ==> name == TextOrEmpty(view.menteeName)
    ensures !view.isMentor ==> name == TextOrEmpty(view.mentorName)
  {
    if view.isMentor then TextOrEmpty(view.menteeName) else TextOrEmpty(view.mentorName)
  }

  /**
   * On a listed session the title names the other participant: the mentee
   * when the viewer is the mentor, otherwise the mentor, the viewer then
   * being the mentee.
   */
  lemma CounterpartIsOtherParticipant(sessions: seq<Session>, users: seq<User>, userId: int, i: int)
    requires 0 <= i < |Enrich(SessionsOf(sessions, userId), users, userId)|
    ensures var v := Enrich(SessionsOf(sessions, userId), users, userId)[i];
      var other := if v.isMentor then v.session.menteeId else v.session.mentorId;
      && Counterpart(v) == TextOrEmpty(NameOf(users, other))
      && (v.session.mentorId != v.session.menteeId ==> other != userId)
  {
    NotMentorMeansMentee(sessions, users, userId, i);
  }

  /**
   * The join as written, on a mentor Ann (id 1) and a mentee Bob (id 2)
   * sharing one session: Ann's list holds the session twice, and one of
   * its two cards (the first, in the users table's order here; the query
   * fixes no order) is titled with her own name; the intended listing holds
   * it once, titled Bob.
   */
  lemma ViewerSeesOwnName()
    ensures var s := Session(1, 2, 0, "pending", None);
      var users := [User(1, "ann", "Ann", "mentor", None, None), User(2, "bob", "Bob", "mentee", None, None)];
      var written := ListAsWritten([s], users, 1);
      var intended := Enrich(SessionsOf([s], 1), users, 1);
      && |written| == 2 && written[0].session == written[1].session == s
      && Counterpart(written[0]) == "Ann"
      && |intended| == 1 && Counterpart(intended[0]) == "Bob"
  {
    var s := Session(1, 2, 0, "pending", None);
    var ann := User(1, "ann", "Ann", "mentor", None, None);
    var bob := User(2, "bob", "Bob", "mentee", None, None);
    var users := [ann, bob];
    assert Participants(s, users) == [ann, bob] by {
      assert users[1..] == [bob];
      assert users[1..][1..] == [];
    }
    assert JoinedRows(s, users, 1)[0] == SessionView(s, true, Some("Ann"), Some("Ann"));
    assert ListAsWritten([s], users, 1) == JoinedRows(s, users, 1) + ListAsWritten([], users, 1);
    assert SessionsOf([s], 1) == [s] by {
      assert [s][1..] == [];
    }
    assert NameOf(users, 2) == Some("Bob") by {
      assert users[1].id == 2;
    }
  }

  /** The target statuses of the buttons on a card, in display order. */
  function OfferedStatuses(status: string, isMentor: bool): (targets: seq<string>)
    ensures |targets| <= 2
  {
    (if status == "pending" && isMentor then ["confirmed", "cancelled"] else [])
    + (if status == "confirmed" then ["completed"] else [])
  }

  /** The session lifecycle: pending to confirmed or cancelled, confirmed to completed. */
  predicate Allowed(from: string, to: string)
  {
    (from == "pending" && (to == "confirmed" || to == "cancelled"))
    || (from == "confirmed" && to == "completed")
  }

  /** Accept and refuse appear exactly for the mentor of a pending session. */
  lemma AcceptRefuseOffered(status: string, isMentor: bool)
    ensures "confirmed" in OfferedStatuses(status, isMentor) <==> status == "pending" && isMentor
    ensures "cancelled" in OfferedStatuses(status, isMentor) <==> status == "pending" && isMentor
  {
  }

  /** "Mark completed" appears exactly for a confirmed session, whoever views it. */
  lemma CompleteOffered(status: string, isMentor: bool)
    ensures "completed" in OfferedStatuses(status, isMentor) <==> status == "confirmed"
  {
  }

  /** A completed or cancelled session offers nothing; a mentee can never confirm a pending session. */
  lemma NoneFromTerminal(status: string, isMentor: bool)
    ensures status == "completed" || status == "cancelled" ==> OfferedStatuses(status, isMentor) == []
    ensures !isMentor ==> "confirmed" !in OfferedStatuses("pending", isMentor)
  {
  }

  /**
   * Every offered change follows the lifecycle, and every lifecycle step is
   * offered to the mentor (and completion to both participants).
   */
  lemma OffersFollowLifecycle(status: string, isMentor: bool, to: string)
    ensures to in OfferedStatuses(status, isMentor) ==> Allowed(status, to)
    ensures Allowed(status, to) && (isMentor || to == "completed") ==> to in OfferedStatuses(status, isMentor)
  {
  }
}
