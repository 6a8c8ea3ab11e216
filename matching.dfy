/**
 * Compatibility matching (`GET /api/matching`): every other member is
 * scored against the requester, the scores are clamped to 100, and the ten
 * best are returned, best first.
 */
module Matching {
  import opened Platform
  import Seqs

  /** A candidate profile paired with its compatibility score. */
  datatype Match = Match(candidate: User, compatibility: int)

  const RoleBonus := 50
  const InterestPoints := 10
  const SkillPoints := 5
  const MaxCompatibility := 100
  const MaxMatches := 10

  /** The role a requester is matched against: mentors look for mentees, everyone else for mentors. */
  function OppositeRole(role: string): (r: string)
    ensures r == "mentee" <==> role == "mentor"
    ensures r == "mentor" <==> role != "mentor"
  {
    if role == "mentor" then "mentee" else "mentor"
  }

  function Min(a: int, b: int): int { if a < b then a else b }

  /** Reference count of the entries of `xs` that occur in `ys` (duplicates in `xs` counted). */
  function CountShared(xs: seq<string>, ys: seq<string>): (n: nat)
    ensures n <= |xs|
  {
    if xs == [] then 0 else (if xs[0] in ys then 1 else 0) + CountShared(xs[1..], ys)
  }

  /** Reference count of the entries of `xs` that do not occur in `ys`. */
  function CountMissing(xs: seq<string>, ys: seq<string>): (n: nat)
    ensures n <= |xs|
  {
    if xs == [] then 0 else (if xs[0] !in ys then 1 else 0) + CountMissing(xs[1..], ys)
  }

  /** Interest points: 10 per requester interest the candidate shares, none when either list is null. */
  function InterestScore(user: User, candidate: User): nat
  {
    if user.interests.Some? && candidate.interests.Some?
    then InterestPoints * CountShared(user.interests.value, candidate.interests.value)
    else 0
  }

  /** Skill points: 5 per requester skill the candidate lacks, none when either list is null. */
  function SkillScore(user: User, candidate: User): nat
  {
    if user.skills.Some? && candidate.skills.Some?
    then SkillPoints * CountMissing(user.skills.value, candidate.skills.value)
    else 0
  }

  /** The role points: 50 exactly when the candidate has the requester's opposite role. */
  function RoleScore(user: User, candidate: User): nat
  {
    if candidate.role == OppositeRole(user.role) then RoleBonus else 0
  }

  /**
   * The scoring callback of the route: an accumulator that starts at 0,
   * adds the role bonus, the shared interests found with `filter` and
   * `includes`, the complementary skills, and is clamped with `Math.min`.
   */
  function Compatibility(user: User, candidate: User): (c: int)
    ensures 0 <= c <= MaxCompatibility
    ensures c == Min(RoleScore(user, candidate) + InterestScore(user, candidate) + SkillScore(user, candidate),
                     MaxCompatibility)
  {
    var afterRole := if candidate.role == OppositeRole(user.role) then RoleBonus else 0;
    var afterInterests :=
      if user.interests.Some? && candidate.interests.Some? then
        var common := Seqs.Filter(user.interests.value, (i: string) => i in candidate.interests.value);
        SharedIsFilter(user.interests.value, candidate.interests.value);
        afterRole + |common| * InterestPoints
      else afterRole;
    var afterSkills :=
      if user.skills.Some? && candidate.skills.Some? then
        var complementary := Seqs.Filter(user.skills.value, (s: string) => s !in candidate.skills.value);
        MissingIsFilter(user.skills.value, candidate.skills.value);
        afterInterests + |complementary| * SkillPoints
      else afterInterests;
    Min(afterSkills, MaxCompatibility)
  }

  /** `filter(x => ys.includes(x)).length` is the reference shared count. */
  lemma {:induction false} SharedIsFilter(xs: seq<string>, ys: seq<string>)
    ensures |Seqs.Filter(xs, (i: string) => i in ys)| == CountShared(xs, ys)
  {
    if xs != [] {
      SharedIsFilter(xs[1..], ys);
    }
  }

  /** `filter(x => !ys.includes(x)).length` is the reference missing count. */
  lemma {:induction false} MissingIsFilter(xs: seq<string>, ys: seq<string>)
    ensures |Seqs.Filter(xs, (s: string) => s !in ys)| == CountMissing(xs, ys)
  {
    if xs != [] {
      MissingIsFilter(xs[1..], ys);
    }
  }

  /** Every requester entry is either shared with the candidate or missing from it. */
  lemma {:induction false} SharedPlusMissing(xs: seq<string>, ys: seq<string>)
    ensures CountShared(xs, ys) + CountMissing(xs, ys) == |xs|
  {
    if xs != [] {
      SharedPlusMissing(xs[1..], ys);
    }
  }

  predicate NoDuplicates(xs: seq<string>)
  {
    forall i, j :: 0 <= i < j < |xs| ==> xs[i] != xs[j]
  }

  function Elements(xs: seq<string>): set<string>
  {
    set x | x in xs
  }

  /** The label set of a non-empty list is its head added to the label set of its tail. */
  lemma ElementsCons(xs: seq<string>)
    requires xs != []
    ensures Elements(xs) == {xs[0]} + Elements(xs[1..])
  {
    forall z | z in Elements(xs)
      ensures z == xs[0] || z in Elements(xs[1..])
    {
      var i :| 0 <= i < |xs| && xs[i] == z;
      if i > 0 {
        assert xs[1..][i - 1] == z;
      }
    }
  }

  /** In a duplicate-free list the head does not occur in the tail. */
  lemma HeadNotInTail(xs: seq<string>)
    requires xs != [] && NoDuplicates(xs)
    ensures xs[0] !in Elements(xs[1..]) && NoDuplicates(xs[1..])
  {
  }

  /**
   * For a duplicate-free requester list the shared count is the size of the
   * intersection of the two label sets.
   */
  lemma {:induction false} SharedIsIntersection(xs: seq<string>, ys: seq<string>)
    requires NoDuplicates(xs)
    ensures CountShared(xs, ys) == |Elements(xs) * Elements(ys)|
  {
    if xs == [] {
      assert Elements(xs) == {};
    } else {
      var t := xs[1..];
      HeadNotInTail(xs);
      SharedIsIntersection(t, ys);
      ElementsCons(xs);
      var both := Elements(t) * Elements(ys);
      assert xs[0] !in both;
      if xs[0] in ys {
        assert xs[0] in Elements(ys);
        assert Elements(xs) * Elements(ys) == {xs[0]} + both;
        assert |{xs[0]} + both| == |both| + 1;
      } else {
        assert xs[0] !in Elements(ys);
        assert Elements(xs) * Elements(ys) == both;
      }
    }
  }

  /**
   * For a duplicate-free requester list the missing count is the size of the
   * difference of the two label sets.
   */
  lemma {:induction false} MissingIsDifference(xs: seq<string>, ys: seq<string>)
    requires NoDuplicates(xs)
    ensures CountMissing(xs, ys) == |Elements(xs) - Elements(ys)|
  {
    if xs == [] {
      assert Elements(xs) == {};
    } else {
      var t := xs[1..];
      HeadNotInTail(xs);
      MissingIsDifference(t, ys);
      ElementsCons(xs);
      var rest := Elements(t) - Elements(ys);
      assert xs[0] !in rest;
      if xs[0] in ys {
        assert xs[0] in Elements(ys);
        assert Elements(xs) - Elements(ys) == rest;
      } else {
        assert xs[0] !in Elements(ys);
        assert Elements(xs) - Elements(ys) == {xs[0]} + rest;
        assert |{xs[0]} + rest| == |rest| + 1;
      }
    }
  }

  /** The candidate gets exactly the +50 bonus iff its role is the requester's opposite role. */
  lemma RoleBonusIff(user: User, candidate: User)
    ensures RoleScore(user, candidate) == RoleBonus
        <==> candidate.role == (if user.role == "mentor" then "mentee" else "mentor")
    ensures RoleScore(user, candidate) == 0
        <==> candidate.role != (if user.role == "mentor" then "mentee" else "mentor")
  {
  }

  /** Two members with the same role never earn the role bonus from each other. */
  lemma SameRoleNoBonus(user: User, candidate: User)
    requires user.role == candidate.role
    ensures Compatibility(user, candidate)
         == Min(InterestScore(user, candidate) + SkillScore(user, candidate), MaxCompatibility)
  {
  }

  /**
   * Members with opposite roles, no shared interest and no complementary
   * skill score exactly the role bonus.
   */
  lemma OppositeRolesOnly(user: User, candidate: User)
    requires candidate.role == OppositeRole(user.role)
    requires user.interests.Some? && candidate.interests.Some? ==>
               forall i :: 0 <= i < |user.interests.value| ==> user.interests.value[i] !in candidate.interests.value
    requires user.skills.Some? && candidate.skills.Some? ==>
               forall i :: 0 <= i < |user.skills.value| ==> user.skills.value[i] in candidate.skills.value
    ensures Compatibility(user, candidate) == RoleBonus
  {
    if user.interests.Some? && candidate.interests.Some? {
      NoneShared(user.interests.value, candidate.interests.value);
    }
    if user.skills.Some? && candidate.skills.Some? {
      NoneMissing(user.skills.value, candidate.skills.value);
    }
  }

  lemma {:induction false} NoneShared(xs: seq<string>, ys: seq<string>)
    requires forall i :: 0 <= i < |xs| ==> xs[i] !in ys
    ensures CountShared(xs, ys) == 0
  {
    if xs != [] {
      NoneShared(xs[1..], ys);
    }
  }

  lemma {:induction false} NoneMissing(xs: seq<string>, ys: seq<string>)
    requires forall i :: 0 <= i < |xs| ==> xs[i] in ys
    ensures CountMissing(xs, ys) == 0
  {
    if xs != [] {
      NoneMissing(xs[1..], ys);
    }
  }

  /**
   * A null interest or skill list on either side contributes nothing, not
   * "every skill": each list is scored on its own, and with both null only
   * the role bonus remains.
   */
  lemma NullListsScoreNothing(user: User, candidate: User)
    ensures user.interests.None? || candidate.interests.None? ==> InterestScore(user, candidate) == 0
    ensures user.skills.None? || candidate.skills.None? ==> SkillScore(user, candidate) == 0
    ensures (user.interests.None? || candidate.interests.None?) && (user.skills.None? || candidate.skills.None?) ==>
      Compatibility(user, candidate) == RoleScore(user, candidate)
  {
  }

  /** `ne(users.clerkId, subject)`: every member but the requester. */
  function Candidates(users: seq<User>, clerkId: string): (r: seq<User>)
    ensures forall i :: 0 <= i < |r| ==> r[i] in users && r[i].clerkId != clerkId
    ensures forall i :: 0 <= i < |users| && users[i].clerkId != clerkId ==> users[i] in r
  {
    Seqs.Filter(users, (u: User) => u.clerkId != clerkId)
  }

  /** `potentialMatches.map(...)`: every candidate with its score, in table order. */
  function ScoreAll(user: User, candidates: seq<User>): (r: seq<Match>)
    ensures |r| == |candidates|
    ensures forall i :: 0 <= i < |r| ==> r[i] == Match(candidates[i], Compatibility(user, candidates[i]))
  {
    seq(|candidates|, i requires 0 <= i < |candidates| => Match(candidates[i], Compatibility(user, candidates[i])))
  }

  predicate SortedDescending(s: seq<Match>)
  {
    forall i, j :: 0 <= i < j < |s| ==> s[i].compatibility >= s[j].compatibility
  }

  /** Exchanges two entries of the array. */
  method Swap(a: array<Match>, i: int, j: int)
    requires 0 <= i < j < a.Length
    modifies a
    ensures a[i] == old(a[j]) && a[j] == old(a[i])
    ensures forall k :: 0 <= k < a.Length && k != i && k != j ==> a[k] == old(a[k])
    ensures multiset(a[..]) == multiset(old(a[..]))
  {
    a[i], a[j] := a[j], a[i];
  }

  /**
   * Moves `a[i]` left past every strictly smaller score, so that a sorted
   * prefix of length `i` becomes a sorted prefix of length `i + 1`.
   */
  method InsertIntoPrefix(a: array<Match>, i: int)
    requires 0 <= i < a.Length
    requires SortedDescending(a[..i])
    modifies a
    ensures SortedDescending(a[..i + 1])
    ensures forall k :: i < k < a.Length ==> a[k] == old(a[k])
    ensures multiset(a[..]) == multiset(old(a[..]))
  {
    var j := i;
    while j > 0 && a[j - 1].compatibility < a[j].compatibility
      invariant 0 <= j <= i
      invariant forall k :: i < k < a.Length ==> a[k] == old(a[k])
      invariant multiset(a[..]) == multiset(old(a[..]))
      invariant forall p, q :: 0 <= p < q <= i && p != j && q != j ==> a[p].compatibility >= a[q].compatibility
      invariant forall q :: j < q <= i ==> a[j].compatibility > a[q].compatibility
    {
      Swap(a, j - 1, j);
      j := j - 1;
    }
  }

  /**
   * `matches.sort((a, b) => b.compatibility - a.compatibility)`: sorts the
   * array in place, best score first (insertion sort; it moves an entry
   * only past strictly smaller scores).
   */
  method SortByCompatibility(a: array<Match>)
    modifies a
    ensures SortedDescending(a[..])
    ensures multiset(a[..]) == multiset(old(a[..]))
  {
    var i := 0;
    while i < a.Length
      invariant 0 <= i <= a.Length
      invariant SortedDescending(a[..i])
      invariant multiset(a[..]) == multiset(old(a[..]))
    {
      InsertIntoPrefix(a, i);
      i := i + 1;
    }
    assert a[..a.Length] == a[..];
  }

  /** The first `k` entries of a sorted list are at least as good as everything left out. */
  lemma TopOfSorted(s: seq<Match>, k: nat)
    requires SortedDescending(s) && k <= |s|
    ensures SortedDescending(s[..k])
    ensures multiset(s[..k]) <= multiset(s)
    ensures forall x, y :: x in s[..k] && y in multiset(s) - multiset(s[..k]) ==> y.compatibility <= x.compatibility
  {
    SplitCounts(s, k);
    forall x, y | x in s[..k] && y in multiset(s) - multiset(s[..k])
      ensures y.compatibility <= x.compatibility
    {
      assert y in multiset(s[k..]);
      HeadBeatsTail(s, k, x, y);
    }
  }

  /** A sequence's multiset is that of its first `k` entries plus that of the rest. */
  lemma SplitCounts(s: seq<Match>, k: nat)
    requires k <= |s|
    ensures multiset(s) == multiset(s[..k]) + multiset(s[k..])
  {
    assert s == s[..k] + s[k..];
  }

  /** In a sequence sorted best first, an entry before position `k` scores at least as much as one after it. */
  lemma HeadBeatsTail(s: seq<Match>, k: nat, x: Match, y: Match)
    requires SortedDescending(s) && k <= |s|
    requires x in s[..k] && y in s[k..]
    ensures y.compatibility <= x.compatibility
  {
    var i :| 0 <= i < k && s[..k][i] == x;
    var j :| 0 <= j < |s[k..]| && s[k..][j] == y;
    assert s[i] == x && s[k + j] == y;
  }

  /** Every scored entry is another member, paired with its own score. */
  lemma ScoredEntries(user: User, users: seq<User>, clerkId: string)
    ensures forall m :: m in ScoreAll(user, Candidates(users, clerkId)) ==>
      && m.candidate in users
      && m.candidate.clerkId != clerkId
      && m.compatibility == Compatibility(user, m.candidate)
      && 0 <= m.compatibility <= MaxCompatibility
  {
  }

  /** The first `k` entries of a sorted permutation of `scored` are its `k` best entries, drawn from `scored`. */
  lemma TopOfPermutation(scored: seq<Match>, sorted: seq<Match>, k: nat)
    requires SortedDescending(sorted) && multiset(sorted) == multiset(scored) && k <= |sorted|
    ensures |sorted[..k]| == k && SortedDescending(sorted[..k])
    ensures multiset(sorted[..k]) <= multiset(scored)
    ensures forall x, y :: x in sorted[..k] && y in multiset(scored) - multiset(sorted[..k]) ==>
      y.compatibility <= x.compatibility
    ensures forall m :: m in sorted[..k] ==> m in scored
  {
    TopOfSorted(sorted, k);
    forall m | m in sorted[..k]
      ensures m in scored
    {
      assert m in multiset(sorted[..k]);
    }
  }

  /**
   * The route: 401 without a signed-in member, an empty list for a member
   * without a profile, otherwise the (at most) ten best-scored other
   * members, best first.
   */
  method GetMatches(users: seq<User>, subject: Option<string>) returns (status: Outcome, matches: seq<Match>)
    ensures subject.None? ==> status == Unauthorized && matches == []
    ensures subject.Some? ==> status == Ok
    ensures CurrentProfile(users, subject).None? ==> matches == []
    ensures CurrentProfile(users, subject).Some? ==>
      var me := CurrentProfile(users, subject).value;
      var scored := ScoreAll(me, Candidates(users, subject.value));
      && |matches| == Min(MaxMatches, |scored|)
      && SortedDescending(matches)
      && multiset(matches) <= multiset(scored)
      && (forall x, y :: x in matches && y in multiset(scored) - multiset(matches) ==>
            y.compatibility <= x.compatibility)
    ensures forall m :: m in matches ==>
      && m.candidate in users
      && m.candidate.clerkId != subject.value
      && m.compatibility == Compatibility(CurrentProfile(users, subject).value, m.candidate)
      && 0 <= m.compatibility <= MaxCompatibility
  {
    if subject.None? {
      return Unauthorized, [];
    }
    status := Ok;
    var profile := FindByClerkId(users, subject.value);
    if profile.None? {
      return status, [];
    }
    var me := profile.value;
    var scored := ScoreAll(me, Candidates(users, subject.value));
    var a := new Match[|scored|](i requires 0 <= i < |scored| => scored[i]);
    assert a[..] == scored;
    SortByCompatibility(a);
    var k := Min(MaxMatches, a.Length);
    TopOfPermutation(scored, a[..], k);
    ScoredEntries(me, users, subject.value);
    matches := a[..k];
  }
}
