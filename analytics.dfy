/**
 * Usage analytics (`GET /api/analytics`): the reporting window chosen by
 * the `period` selector, the four usage counters with their defaults, and
 * the achievement engine that awards each badge at most once per member.
 */
module Analytics {
  import opened Platform
  import Seqs

  const MillisPerDay := 24 * 60 * 60 * 1000

  /** `searchParams.get('period') || 'monthly'`: an absent or empty selector means monthly. */
  function PeriodOrDefault(param: Option<string>): (period: string)
    ensures period != ""
    ensures param.Some? && param.value != "" ==> period == param.value
  {
    if param.None? || param.value == "" then "monthly" else param.value
  }

  /** The `switch (period)`: days in the window, with monthly as the fallback. */
  function WindowDays(period: string): (days: nat)
    ensures days == 7 <==> period == "weekly"
    ensures days == 365 <==> period == "yearly"
    ensures days == 7 || days == 30 || days == 365
  {
    match period
    case "weekly" => 7
    case "monthly" => 30
    case "yearly" => 365
    case _ => 30
  }

  /** `now.getTime() - days * 24 * 60 * 60 * 1000`, in milliseconds. */
  function WindowStart(nowMs: int, param: Option<string>): (startMs: int)
    ensures 7 * MillisPerDay <= nowMs - startMs <= 365 * MillisPerDay
  {
    nowMs - WindowDays(PeriodOrDefault(param)) * MillisPerDay
  }

  /** The three named selectors give 7, 30 and 365 days, and any other selector gives 30. */
  lemma WindowLengths(nowMs: int, param: Option<string>)
    ensures param == Some("weekly") ==> WindowStart(nowMs, param) == nowMs - 7 * 86400000
    ensures param == Some("yearly") ==> WindowStart(nowMs, param) == nowMs - 365 * 86400000
    ensures param != Some("weekly") && param != Some("yearly") ==>
              WindowStart(nowMs, param) == nowMs - 30 * 86400000
  {
  }

  /** A missing, empty or unknown selector behaves exactly like `monthly`. */
  lemma UnknownPeriodIsMonthly(nowMs: int, param: Option<string>)
    requires param != Some("weekly") && param != Some("yearly")
    ensures WindowStart(nowMs, param) == WindowStart(nowMs, Some("monthly"))
    ensures WindowStart(nowMs, param) == WindowStart(nowMs, None)
  {
  }

  /** Longer periods reach further back: the weekly window lies inside the monthly one, which lies inside the yearly one. */
  lemma WindowsNest(nowMs: int)
    ensures WindowStart(nowMs, Some("yearly")) < WindowStart(nowMs, Some("monthly"))
                                               < WindowStart(nowMs, Some("weekly")) < nowMs
  {
  }

  /** The four counters fed to the achievement engine. */
  datatype UsageCounters = UsageCounters(
    profileViews: nat,
    projectViews: nat,
    connections: nat,
    mentorshipSessions: nat)

  /** `rows[0]?.count || 0`: the count of the first result row, 0 when there is none. */
  function CountOrZero(rows: seq<nat>): (n: nat)
    ensures rows == [] ==> n == 0
    ensures rows != [] ==> n == rows[0]
  {
    if rows == [] then 0 else rows[0]
  }

  /** A badge awarded to one member. */
  datatype AchievementRecord = AchievementRecord(
    userId: int,
    achievementType: string,
    name: string,
    description: string,
    unlockedAt: int)

  /** A row of the fixed threshold table: the type tag and the text stored with it. */
  datatype Badge = Badge(achievementType: string, name: string, description: string)

  const FirstProject := Badge("first_project", "Premier projet", "Vous avez partagé votre premier projet !")
  const MentorSessions := Badge("mentor_sessions", "Mentor expérimenté", "Vous avez participé à 5 sessions de mentorat !")
  const NetworkGrowth := Badge("network_growth", "Réseau étendu", "Vous avez établi 10 connexions sur la plateforme !")
  const PopularProfile := Badge("popular_profile", "Profil populaire", "Votre profil a été consulté 50 fois !")

  /** The type tags whose threshold the counters have crossed. */
  function Earned(stats: UsageCounters): (types: set<string>)
    ensures types <= {FirstProject.achievementType, MentorSessions.achievementType,
                      NetworkGrowth.achievementType, PopularProfile.achievementType}
  {
    (if stats.projectViews > 0 then {FirstProject.achievementType} else {})
    + (if stats.mentorshipSessions >= 5 then {MentorSessions.achievementType} else {})
    + (if stats.connections >= 10 then {NetworkGrowth.achievementType} else {})
    + (if stats.profileViews >= 50 then {PopularProfile.achievementType} else {})
  }

  /** Each badge is earned exactly when its threshold is crossed, and nothing else is earned. */
  lemma EarnedIff(stats: UsageCounters)
    ensures "first_project" in Earned(stats) <==> stats.projectViews > 0
    ensures "mentor_sessions" in Earned(stats) <==> stats.mentorshipSessions >= 5
    ensures "network_growth" in Earned(stats) <==> stats.connections >= 10
    ensures "popular_profile" in Earned(stats) <==> stats.profileViews >= 50
    ensures Earned(stats) <= {"first_project", "mentor_sessions", "network_growth", "popular_profile"}
  {
  }

  /** Larger counters never earn fewer badges: thresholds are one-way. */
  lemma EarnedMonotone(small: UsageCounters, large: UsageCounters)
    requires small.profileViews <= large.profileViews
    requires small.projectViews <= large.projectViews
    requires small.connections <= large.connections
    requires small.mentorshipSessions <= large.mentorshipSessions
    ensures Earned(small) <= Earned(large)
  {
  }

  /** The types a member holds. */
  function TypesOf(records: seq<AchievementRecord>, userId: int): set<string>
  {
    set r | r in records && r.userId == userId :: r.achievementType
  }

  /** The types held after appending are those held before and those appended. */
  lemma TypesOfAppend(a: seq<AchievementRecord>, b: seq<AchievementRecord>, userId: int)
    ensures TypesOf(a + b, userId) == TypesOf(a, userId) + TypesOf(b, userId)
  {
    forall t | t in TypesOf(a + b, userId)
      ensures t in TypesOf(a, userId) + TypesOf(b, userId)
    {
      var r :| r in a + b && r.userId == userId && r.achievementType == t;
    }
  }

  /**
   * `existingAchievements.map(a => a.achievementType)`: the member's types
   * in table order.
   */
  function TypeList(records: seq<AchievementRecord>, userId: int): (types: seq<string>)
    ensures forall t :: t in types <==> t in TypesOf(records, userId)
  {
    if records == [] then []
    else
      TypesOfAppend([records[0]], records[1..], userId);
      assert records == [records[0]] + records[1..];
      (if records[0].userId == userId then [records[0].achievementType] else [])
      + TypeList(records[1..], userId)
  }

  /** The member's records in table order. */
  function RecordsOf(records: seq<AchievementRecord>, userId: int): (r: seq<AchievementRecord>)
    ensures forall i :: 0 <= i < |r| ==> r[i] in records && r[i].userId == userId
    ensures forall i :: 0 <= i < |records| && records[i].userId == userId ==> records[i] in r
  {
    Seqs.Filter(records, (a: AchievementRecord) => a.userId == userId)
  }

  /** The record one threshold row inserts, if its condition holds and its type is not held. */
  function AwardIf(userId: int, badge: Badge, crossed: bool, existing: set<string>, now: int)
    : seq<AchievementRecord>
  {
    if crossed && badge.achievementType !in existing
    then [AchievementRecord(userId, badge.achievementType, badge.name, badge.description, now)]
    else []
  }

  /** One conditional insert of the engine, with the types read as a list, appends `AwardIf`. */
  lemma AwardStep(s: seq<AchievementRecord>, userId: int, badge: Badge, crossed: bool,
                  existing: set<string>, types: seq<string>, now: int)
    requires forall t :: t in types <==> t in existing
    ensures (if crossed && badge.achievementType !in types
             then s + [AchievementRecord(userId, badge.achievementType, badge.name, badge.description, now)]
             else s)
            == s + AwardIf(userId, badge, crossed, existing, now)
  {
    if !(crossed && badge.achievementType !in types) {
      assert s + [] == s;
    }
  }

  /** Appending four runs one after another appends their concatenation. */
  lemma AppendFour(s: seq<AchievementRecord>, a1: seq<AchievementRecord>, a2: seq<AchievementRecord>,
                   a3: seq<AchievementRecord>, a4: seq<AchievementRecord>)
    ensures s + a1 + a2 + a3 + a4 == s + (a1 + a2 + a3 + a4)
  {
    assert s + a1 + a2 == s + (a1 + a2);
    assert s + (a1 + a2) + a3 == s + (a1 + a2 + a3);
  }

  /** The records one run of the engine appends, given the types read before the run. */
  function NewRecords(userId: int, stats: UsageCounters, existing: set<string>, now: int)
    : (r: seq<AchievementRecord>)
    ensures |r| <= 4
    ensures forall i :: 0 <= i < |r| ==> r[i].userId == userId && r[i].unlockedAt == now
    ensures forall i :: 0 <= i < |r| ==> r[i].achievementType !in existing
  {
    AwardIf(userId, FirstProject, stats.projectViews > 0, existing, now)
    + AwardIf(userId, MentorSessions, stats.mentorshipSessions >= 5, existing, now)
    + AwardIf(userId, NetworkGrowth, stats.connections >= 10, existing, now)
    + AwardIf(userId, PopularProfile, stats.profileViews >= 50, existing, now)
  }

  /** No member holds two records of the same type. */
  ghost predicate AtMostOnePerType(records: seq<AchievementRecord>)
  {
    forall i, j :: 0 <= i < j < |records| && records[i].userId == records[j].userId ==>
      records[i].achievementType != records[j].achievementType
  }

  /** One threshold row appends at most one record, of its own type, for the member. */
  lemma AwardIfFacts(userId: int, badge: Badge, crossed: bool, existing: set<string>, now: int)
    ensures var r := AwardIf(userId, badge, crossed, existing, now);
      && |r| <= 1
      && (forall x :: x in r ==> x.userId == userId && x.unlockedAt == now && x.achievementType == badge.achievementType)
      && TypesOf(r, userId) == (if crossed then {badge.achievementType} else {}) - existing
      && AtMostOnePerType(r)
  {
  }

  /** Two record lists that never share a (member, type) pair concatenate without duplicates. */
  lemma AppendAtMostOne(a: seq<AchievementRecord>, b: seq<AchievementRecord>)
    requires AtMostOnePerType(a) && AtMostOnePerType(b)
    requires forall x, y :: x in a && y in b && x.userId == y.userId ==> x.achievementType != y.achievementType
    ensures AtMostOnePerType(a + b)
  {
    var ab := a + b;
    forall i, j | 0 <= i < j < |ab| && ab[i].userId == ab[j].userId
      ensures ab[i].achievementType != ab[j].achievementType
    {
      if i < |a| && j >= |a| {
        assert ab[i] in a && ab[j] == b[j - |a|];
      } else if i >= |a| {
        assert ab[i] == b[i - |a|] && ab[j] == b[j - |a|];
      }
    }
  }

  /** The four threshold rows carry four different type tags. */
  lemma BadgeTypesDistinct()
    ensures FirstProject.achievementType != MentorSessions.achievementType
    ensures FirstProject.achievementType != NetworkGrowth.achievementType
    ensures FirstProject.achievementType != PopularProfile.achievementType
    ensures MentorSessions.achievementType != NetworkGrowth.achievementType
    ensures MentorSessions.achievementType != PopularProfile.achievementType
    ensures NetworkGrowth.achievementType != PopularProfile.achievementType
  {
    assert FirstProject.achievementType[0] == 'f';
    assert MentorSessions.achievementType[0] == 'm';
    assert NetworkGrowth.achievementType[0] == 'n';
    assert PopularProfile.achievementType[0] == 'p';
  }

  lemma DifferenceDistributes(a: set<string>, b: set<string>, c: set<string>, d: set<string>, e: set<string>)
    ensures (a + b + c + d) - e == (a - e) + (b - e) + (c - e) + (d - e)
  {
  }

  /**
   * One run appends only records for the member, stamped `now`, whose types
   * are exactly the earned types the member did not hold.
   */
  lemma NewRecordsTypes(userId: int, stats: UsageCounters, existing: set<string>, now: int)
    ensures var r := NewRecords(userId, stats, existing, now);
      && |r| <= 4
      && (forall x :: x in r ==> x.userId == userId && x.unlockedAt == now)
      && TypesOf(r, userId) == Earned(stats) - existing
  {
    var a := AwardIf(userId, FirstProject, stats.projectViews > 0, existing, now);
    var b := AwardIf(userId, MentorSessions, stats.mentorshipSessions >= 5, existing, now);
    var c := AwardIf(userId, NetworkGrowth, stats.connections >= 10, existing, now);
    var d := AwardIf(userId, PopularProfile, stats.profileViews >= 50, existing, now);
    AwardIfFacts(userId, FirstProject, stats.projectViews > 0, existing, now);
    AwardIfFacts(userId, MentorSessions, stats.mentorshipSessions >= 5, existing, now);
    AwardIfFacts(userId, NetworkGrowth, stats.connections >= 10, existing, now);
    AwardIfFacts(userId, PopularProfile, stats.profileViews >= 50, existing, now);
    TypesOfAppend(a, b, userId);
    TypesOfAppend(a + b, c, userId);
    TypesOfAppend(a + b + c, d, userId);
    assert NewRecords(userId, stats, existing, now) == a + b + c + d;
    var A := if stats.projectViews > 0 then {FirstProject.achievementType} else {};
    var B := if stats.mentorshipSessions >= 5 then {MentorSessions.achievementType} else {};
    var C := if stats.connections >= 10 then {NetworkGrowth.achievementType} else {};
    var D := if stats.profileViews >= 50 then {PopularProfile.achievementType} else {};
    assert Earned(stats) == A + B + C + D;
    DifferenceDistributes(A, B, C, D, existing);
  }

  /** The records of one run have pairwise different types. */
  lemma NewRecordsDistinct(userId: int, stats: UsageCounters, existing: set<string>, now: int)
    ensures AtMostOnePerType(NewRecords(userId, stats, existing, now))
  {
    var a := AwardIf(userId, FirstProject, stats.projectViews > 0, existing, now);
    var b := AwardIf(userId, MentorSessions, stats.mentorshipSessions >= 5, existing, now);
    var c := AwardIf(userId, NetworkGrowth, stats.connections >= 10, existing, now);
    var d := AwardIf(userId, PopularProfile, stats.profileViews >= 50, existing, now);
    AwardIfFacts(userId, FirstProject, stats.projectViews > 0, existing, now);
    AwardIfFacts(userId, MentorSessions, stats.mentorshipSessions >= 5, existing, now);
    AwardIfFacts(userId, NetworkGrowth, stats.connections >= 10, existing, now);
    AwardIfFacts(userId, PopularProfile, stats.profileViews >= 50, existing, now);
    BadgeTypesDistinct();
    AppendAtMostOne(a, b);
    assert forall x: AchievementRecord :: x in a + b ==> x.achievementType in {FirstProject.achievementType, MentorSessions.achievementType};
    AppendAtMostOne(a + b, c);
    assert forall x: AchievementRecord :: x in a + b + c ==> x.achievementType != PopularProfile.achievementType;
    AppendAtMostOne(a + b + c, d);
    assert NewRecords(userId, stats, existing, now) == a + b + c + d;
  }

  /** A run leaves the member with the types held before plus every earned type. */
  lemma AwardTypes(records: seq<AchievementRecord>, userId: int, stats: UsageCounters, now: int)
    ensures TypesOf(records + NewRecords(userId, stats, TypesOf(records, userId), now), userId)
         == TypesOf(records, userId) + Earned(stats)
  {
    var existing := TypesOf(records, userId);
    NewRecordsTypes(userId, stats, existing, now);
    TypesOfAppend(records, NewRecords(userId, stats, existing, now), userId);
  }

  /** Running the engine again with the same counters appends nothing. */
  lemma AwardIdempotent(records: seq<AchievementRecord>, userId: int, stats: UsageCounters, now: int, later: int)
    ensures var after := records + NewRecords(userId, stats, TypesOf(records, userId), now);
      NewRecords(userId, stats, TypesOf(after, userId), later) == []
  {
    AwardTypes(records, userId, stats, now);
  }

  /** A run never gives a member a second record of a type it already holds. */
  lemma AwardKeepsAtMostOne(records: seq<AchievementRecord>, userId: int, stats: UsageCounters, now: int)
    requires AtMostOnePerType(records)
    ensures AtMostOnePerType(records + NewRecords(userId, stats, TypesOf(records, userId), now))
  {
    var existing := TypesOf(records, userId);
    var added := NewRecords(userId, stats, existing, now);
    NewRecordsTypes(userId, stats, existing, now);
    NewRecordsDistinct(userId, stats, existing, now);
    forall x, y | x in records && y in added && x.userId == y.userId
      ensures x.achievementType != y.achievementType
    {
      assert x.achievementType in existing;
      assert y.achievementType in TypesOf(added, userId);
    }
    AppendAtMostOne(records, added);
  }

  /** A member with one project view and nothing else, holding no badge, gets exactly `first_project`. */
  lemma FirstProjectScenario(userId: int, now: int)
    ensures var added := NewRecords(userId, UsageCounters(0, 1, 0, 0), {}, now);
      |added| == 1 && added[0].achievementType == "first_project" && added[0].name == "Premier projet"
  {
  }

  /** A member past every threshold, holding no badge, gets the four types once each. */
  lemma AllThresholdsScenario(userId: int, now: int)
    ensures var added := NewRecords(userId, UsageCounters(50, 1, 10, 5), {}, now);
      |added| == 4
      && added[0].achievementType == "first_project"
      && added[1].achievementType == "mentor_sessions"
      && added[2].achievementType == "network_growth"
      && added[3].achievementType == "popular_profile"
  {
  }

  /** What the route returns besides the side effect on the achievement table. */
  datatype Report = Report(
    profileViews: nat,
    projectViews: nat,
    connections: nat,
    applications: nat,
    mentorshipSessions: nat,
    achievements: seq<AchievementRecord>)

  /** The `userAchievements` table. */
  class AchievementStore {
    var records: seq<AchievementRecord>

    constructor (initial: seq<AchievementRecord>)
      ensures records == initial
    {
      records := initial;
    }

    /**
     * `checkAndAwardAchievements`: reads the member's types once, then
     * inserts each badge whose threshold is crossed and whose type was not
     * among those read.
     */
    method CheckAndAward(userId: int, stats: UsageCounters, now: int)
      modifies this
      ensures records == old(records) + NewRecords(userId, stats, TypesOf(old(records), userId), now)
      ensures TypesOf(records, userId) == TypesOf(old(records), userId) + Earned(stats)
      ensures AtMostOnePerType(old(records)) ==> AtMostOnePerType(records)
    {
      ghost var before := records;
      ghost var existing := TypesOf(before, userId);
      var achievementTypes := TypeList(records, userId);
      ghost var step := records;
      if stats.projectViews > 0 && FirstProject.achievementType !in achievementTypes {
        records := records + [AchievementRecord(userId, FirstProject.achievementType, FirstProject.name,
                                                FirstProject.description, now)];
      }
      AwardStep(before, userId, FirstProject, stats.projectViews > 0, existing, achievementTypes, now);
      step := records;
      if stats.mentorshipSessions >= 5 && MentorSessions.achievementType !in achievementTypes {
        records := records + [AchievementRecord(userId, MentorSessions.achievementType, MentorSessions.name,
                                                MentorSessions.description, now)];
      }
      AwardStep(step, userId, MentorSessions, stats.mentorshipSessions >= 5, existing, achievementTypes, now);
      step := records;
      if stats.connections >= 10 && NetworkGrowth.achievementType !in achievementTypes {
        records := records + [AchievementRecord(userId, NetworkGrowth.achievementType, NetworkGrowth.name,
                                                NetworkGrowth.description, now)];
      }
      AwardStep(step, userId, NetworkGrowth, stats.connections >= 10, existing, achievementTypes, now);
      step := records;
      if stats.profileViews >= 50 && PopularProfile.achievementType !in achievementTypes {
        records := records + [AchievementRecord(userId, PopularProfile.achievementType, PopularProfile.name,
                                                PopularProfile.description, now)];
      }
      AwardStep(step, userId, PopularProfile, stats.profileViews >= 50, existing, achievementTypes, now);
      ghost var a1 := AwardIf(userId, FirstProject, stats.projectViews > 0, existing, now);
      ghost var a2 := AwardIf(userId, MentorSessions, stats.mentorshipSessions >= 5, existing, now);
      ghost var a3 := AwardIf(userId, NetworkGrowth, stats.connections >= 10, existing, now);
      ghost var a4 := AwardIf(userId, PopularProfile, stats.profileViews >= 50, existing, now);
      assert records == before + a1 + a2 + a3 + a4;
      AppendFour(before, a1, a2, a3, a4);
      AwardTypes(before, userId, stats, now);
      if AtMostOnePerType(before) {
        AwardKeepsAtMostOne(before, userId, stats, now);
      }
    }

    /**
     * The route: 401 without a signed-in member, 404 without a profile;
     * otherwise the counters (each defaulting to 0, `applications` always 0),
     * the achievements read before the engine runs, and the engine's update.
     * The counters' result rows are parameters; `windowStart` is the instant
     * they are counted from.
     */
    method GetAnalytics(
      users: seq<User>, subject: Option<string>, period: Option<string>, nowMs: int,
      profileViewRows: seq<nat>, projectViewRows: seq<nat>, connectionRows: seq<nat>, mentorshipRows: seq<nat>)
      returns (status: Outcome, report: Option<Report>, windowStart: int)
      modifies this
      ensures subject.None? ==> status == Unauthorized
      ensures subject.Some? && CurrentProfile(users, subject).None? ==> status == NotFound
      ensures status != Ok ==> report.None? && records == old(records)
      ensures CurrentProfile(users, subject).Some? ==>
        var userId := CurrentProfile(users, subject).value.id;
        var stats := UsageCounters(CountOrZero(profileViewRows), CountOrZero(projectViewRows),
                                   CountOrZero(connectionRows), CountOrZero(mentorshipRows));
        && status == Ok
        && windowStart == WindowStart(nowMs, period)
        && report == Some(Report(stats.profileViews, stats.projectViews, stats.connections, 0,
                                 stats.mentorshipSessions, RecordsOf(old(records), userId)))
        && records == old(records) + NewRecords(userId, stats, TypesOf(old(records), userId), nowMs)
    {
      report, windowStart := None, 0;
      if subject.None? {
        return Unauthorized, report, windowStart;
      }
      var profile := FindByClerkId(users, subject.value);
      if profile.None? {
        return NotFound, report, windowStart;
      }
      var userId := profile.value.id;
      windowStart := WindowStart(nowMs, period);
      var stats := UsageCounters(CountOrZero(profileViewRows), CountOrZero(projectViewRows),
                                 CountOrZero(connectionRows), CountOrZero(mentorshipRows));
      var achievements := RecordsOf(records, userId);
      CheckAndAward(userId, stats, nowMs);
      status := Ok;
      report := Some(Report(stats.profileViews, stats.projectViews, stats.connections, 0,
                            stats.mentorshipSessions, achievements));
    }
  }
}
