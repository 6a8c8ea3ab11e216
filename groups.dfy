/**
 * Discussion groups: the listing route (an optional category filter and a
 * per-group membership flag for the signed-in member) and group creation
 * (the group row, seeded with one member, and the creator's admin row).
 */
module Groups {
  import opened Platform
  import Seqs

  /** A row of `discussionGroups`, without the creation instant. */
  datatype Group = Group(
    id: int,
    name: string,
    description: string,
    category: string,
    createdBy: int,
    isPrivate: bool,
    memberCount: int)

  /** A row of `groupMembers`. */
  datatype Membership = Membership(groupId: int, userId: int, role: string)

  /** A listed group with the membership flag the route adds. */
  datatype GroupView = GroupView(group: Group, isMember: bool)

  /** `searchParams.get('category') || 'all'`. */
  function CategoryOrAll(category: Option<string>): (c: string)
    ensures category.None? || category.value == "" ==> c == "all"
    ensures category.Some? && category.value != "" ==> c == category.value
  {
    if category.Some? && category.value != "" then category.value else "all"
  }

  /** The groups the `where` clause keeps: all of them for `all`, else those of that category. */
  function InCategory(groups: seq<Group>, category: string): (r: seq<Group>)
    ensures category == "all" ==> r == groups
    ensures category != "all" ==>
      (forall i :: 0 <= i < |r| ==> r[i] in groups && r[i].category == category)
      && (forall i :: 0 <= i < |groups| && groups[i].category == category ==> groups[i] in r)
    ensures Seqs.IsSubsequence(r, groups)
  {
    if category == "all" then
      Seqs.FilterKeepsAll(groups, (g: Group) => true);
      Seqs.FilterIsSubsequence(groups, (g: Group) => true);
      groups
    else
      Seqs.FilterIsSubsequence(groups, (g: Group) => g.category == category);
      Seqs.Filter(groups, (g: Group) => g.category == category)
  }

  /** `new Set(memberGroups.map(mg => mg.groupId))` for member `userId`. */
  function MemberGroupIds(members: seq<Membership>, userId: int): set<int>
  {
    set m | m in members && m.userId == userId :: m.groupId
  }

  /** `groups.map(group => ({ ...group, isMember: ids.has(group.id) }))`. */
  function Flag(groups: seq<Group>, ids: set<int>): (views: seq<GroupView>)
    ensures |views| == |groups|
    ensures forall i :: 0 <= i < |views| ==> views[i] == GroupView(groups[i], groups[i].id in ids)
  {
    if groups == [] then [] else [GroupView(groups[0], groups[0].id in ids)] + Flag(groups[1..], ids)
  }

  /** `GET /api/groups`: never refused; the flag is false for everyone without a profile. */
  function ListGroups(groups: seq<Group>, members: seq<Membership>, users: seq<User>,
                      subject: Option<string>, category: Option<string>): (views: seq<GroupView>)
    ensures var listed := InCategory(groups, CategoryOrAll(category));
      && |views| == |listed|
      && forall i :: 0 <= i < |views| ==>
        && views[i].group == listed[i]
        && (views[i].isMember <==>
              CurrentProfile(users, subject).Some?
              && exists m :: m in members && m.groupId == listed[i].id
                               && m.userId == CurrentProfile(users, subject).value.id)
  {
    var listed := InCategory(groups, CategoryOrAll(category));
    match CurrentProfile(users, subject)
    case None => Flag(listed, {})
    case Some(me) => Flag(listed, MemberGroupIds(members, me.id))
  }

  /** Nobody signed in, or no profile: no group is flagged. */
  lemma AnonymousIsMemberOfNothing(groups: seq<Group>, members: seq<Membership>, users: seq<User>,
                                   subject: Option<string>, category: Option<string>)
    requires CurrentProfile(users, subject).None?
    ensures forall v :: v in ListGroups(groups, members, users, subject, category) ==> !v.isMember
  {
  }

  /** Listing with no category, or with `all`, lists every group in table order. */
  lemma AllCategoriesListsEverything(groups: seq<Group>, members: seq<Membership>, users: seq<User>,
                                     subject: Option<string>, category: Option<string>)
    requires category.None? || category.value == "" || category.value == "all"
    ensures var views := ListGroups(groups, members, users, subject, category);
      |views| == |groups| && forall i :: 0 <= i < |views| ==> views[i].group == groups[i]
  {
  }

  /** The next group id exceeds every stored group id. */
  ghost predicate IdsBelow(groups: seq<Group>, nextId: int)
  {
    forall i :: 0 <= i < |groups| ==> groups[i].id < nextId
  }

  /** Ids handed out from a counter above every stored id stay distinct. */
  ghost predicate DistinctIds(groups: seq<Group>)
  {
    forall i, j :: 0 <= i < j < |groups| ==> groups[i].id != groups[j].id
  }

  /** Appending a group under a fresh id keeps ids distinct and below the advanced counter. */
  lemma AppendFreshId(groups: seq<Group>, nextId: int, g: Group)
    requires IdsBelow(groups, nextId) && DistinctIds(groups)
    requires g.id == nextId
    ensures IdsBelow(groups + [g], nextId + 1) && DistinctIds(groups + [g])
  {
    var t := groups + [g];
    forall i, j | 0 <= i < j < |t|
      ensures t[i].id != t[j].id
    {
      assert t[i] == groups[i];
    }
  }

  /** The creator of group `id`, once their admin row is stored, is flagged a member of it. */
  lemma CreatorListedAsMember(members: seq<Membership>, id: int, userId: int)
    ensures id in MemberGroupIds(members + [Membership(id, userId, "admin")], userId)
  {
    assert Membership(id, userId, "admin") in members + [Membership(id, userId, "admin")];
  }

  /** The `discussionGroups` and `groupMembers` tables and the group id sequence. */
  class GroupDirectory {
    var groups: seq<Group>
    var members: seq<Membership>
    var nextId: int

    ghost predicate Valid()
      reads this
    {
      IdsBelow(groups, nextId) && DistinctIds(groups)
    }

    constructor ()
      ensures groups == [] && members == [] && nextId == 1
      ensures Valid()
    {
      groups, members, nextId := [], [], 1;
    }

    /**
     * `POST /api/groups`: 401 without a signed-in member, 404 without a
     * profile; otherwise a group created by the member with one member and
     * `isPrivate` defaulting to false, and the member's admin row for it.
     */
    method Create(users: seq<User>, subject: Option<string>, name: string, description: string,
                  category: string, isPrivate: Option<bool>)
      returns (status: Outcome, created: Option<Group>)
      requires Valid()
      modifies this
      ensures Valid()
      ensures subject.None? ==> status == Unauthorized
      ensures subject.Some? && CurrentProfile(users, subject).None? ==> status == NotFound
      ensures status == Ok <==> CurrentProfile(users, subject).Some?
      ensures status != Ok ==> created.None? && unchanged(this)
      ensures status == Ok ==>
        var userId := CurrentProfile(users, subject).value.id;
        var g := Group(old(nextId), name, description, category, userId,
                       isPrivate.Some? && isPrivate.value, 1);
        && created == Some(g)
        && groups == old(groups) + [g]
        && members == old(members) + [Membership(g.id, userId, "admin")]
        && nextId == old(nextId) + 1
    {
      created := None;
      if subject.None? {
        return Unauthorized, created;
      }
      var profile := FindByClerkId(users, subject.value);
      if profile.None? {
        return NotFound, created;
      }
      var userId := profile.value.id;
      var g := Group(nextId, name, description, category, userId,
                     if isPrivate.Some? then isPrivate.value else false, 1);
      AppendFreshId(groups, nextId, g);
      groups := groups + [g];
      nextId := nextId + 1;
      members := members + [Membership(g.id, userId, "admin")];
      status, created := Ok, Some(g);
    }
  }
}
