/**
 * Shared vocabulary of the platform's route handlers: the optional value a
 * nullable column or a missing request field carries, the outcome of a
 * guarded route, the `users` table row, and the profile lookup by identity
 * subject that every authenticated route starts with.
 */
module Platform {

  datatype Option<+T> = None | Some(value: T)

  /** The status a route answers with, without the HTTP transport around it. */
  datatype Outcome = Ok | Unauthorized | NotFound | BadRequest

  /** A row of the `users` table: the fields the modelled routes read. */
  datatype User = User(
    id: int,
    clerkId: string,
    name: string,
    role: string,
    skills: Option<seq<string>>,
    interests: Option<seq<string>>)

  /**
   * A `select ... where(p) ... limit(1)` query: the first row that passes
   * `p`, if any row does.
   */
  function FindFirst<T>(rows: seq<T>, p: T -> bool): (r: Option<T>)
    ensures r.Some? <==> exists i :: 0 <= i < |rows| && p(rows[i])
    ensures r.Some? ==>
      exists i :: 0 <= i < |rows| && rows[i] == r.value && p(rows[i]) && forall k :: 0 <= k < i ==> !p(rows[k])
  {
    if rows == [] then None
    else if p(rows[0]) then Some(rows[0])
    else
      var r := FindFirst(rows[1..], p);
      assert forall i :: 0 < i < |rows| ==> rows[i] == rows[1..][i - 1];
      r
  }

  /**
   * `select().from(users).where(eq(users.clerkId, subject)).limit(1)`: the
   * first profile stored for an identity subject, if any.
   */
  function FindByClerkId(users: seq<User>, clerkId: string): (r: Option<User>)
    ensures r.Some? <==> exists i :: 0 <= i < |users| && users[i].clerkId == clerkId
    ensures r.Some? ==> r.value in users && r.value.clerkId == clerkId
  {
    FindFirst(users, (u: User) => u.clerkId == clerkId)
  }

  /** `x || ''` for a nullable text column (an empty text stays empty). */
  function TextOrEmpty(x: Option<string>): (s: string)
    ensures x.None? ==> s == ""
    ensures x.Some? ==> s == x.value
  {
    if x.Some? then x.value else ""
  }

  /**
   * The signed-in member's profile: `None` both when nobody is signed in
   * and when the subject has no stored profile.
   */
  function CurrentProfile(users: seq<User>, subject: Option<string>): (r: Option<User>)
    ensures subject.None? ==> r.None?
    ensures subject.Some? ==> r == FindByClerkId(users, subject.value)
  {
    match subject
    case None => None
    case Some(s) => FindByClerkId(users, s)
  }
}

/**
 * Order-preserving filtering of a list, as JavaScript's `Array.prototype.filter`
 * does it, and what "order-preserving" means.
 */
module Seqs {

  /** `xs.filter(keep)`. */
  function Filter<T>(xs: seq<T>, keep: T -> bool): (r: seq<T>)
    ensures |r| <= |xs|
    ensures forall i :: 0 <= i < |r| ==> r[i] in xs && keep(r[i])
    ensures forall i :: 0 <= i < |xs| && keep(xs[i]) ==> xs[i] in r
  {
    if xs == [] then []
    else
      assert xs == [xs[0]] + xs[1..];
      (if keep(xs[0]) then [xs[0]] else []) + Filter(xs[1..], keep)
  }

  /** Filtering keeps every passing element as often as it occurs, and no other. */
  lemma {:induction false} FilterCounts<T>(xs: seq<T>, keep: T -> bool)
    ensures forall x :: x in xs ==> multiset(Filter(xs, keep))[x] == if keep(x) then multiset(xs)[x] else 0
  {
    if xs != [] {
      FilterCounts(xs[1..], keep);
      var head := if keep(xs[0]) then [xs[0]] else [];
      var rest := Filter(xs[1..], keep);
      assert Filter(xs, keep) == head + rest;
      assert xs == [xs[0]] + xs[1..];
      assert multiset(xs) == multiset([xs[0]]) + multiset(xs[1..]);
      assert multiset(head + rest) == multiset(head) + multiset(rest);
      forall x | x in xs
        ensures multiset(Filter(xs, keep))[x] == if keep(x) then multiset(xs)[x] else 0
      {
        if x !in xs[1..] {
          assert x !in rest;
        }
      }
    }
  }

  /** `r` is `xs` with some elements left out and the rest in their order. */
  predicate IsSubsequence<T(==)>(r: seq<T>, xs: seq<T>)
    decreases |xs|
  {
    if r == [] then true
    else if xs == [] then false
    else (r[0] == xs[0] && IsSubsequence(r[1..], xs[1..])) || IsSubsequence(r, xs[1..])
  }

  /** Filtering keeps the relative order of what it keeps. */
  lemma {:induction false} FilterIsSubsequence<T>(xs: seq<T>, keep: T -> bool)
    ensures IsSubsequence(Filter(xs, keep), xs)
  {
    if xs != [] {
      FilterIsSubsequence(xs[1..], keep);
      var r := Filter(xs, keep);
      if !keep(xs[0]) {
        assert r == Filter(xs[1..], keep);
        if r != [] {
          assert IsSubsequence(r, xs[1..]);
        }
      } else {
        assert r[0] == xs[0] && r[1..] == Filter(xs[1..], keep);
      }
    }
  }

  /** Filtering a concatenation filters each part: the kept elements stay in order. */
  lemma {:induction false} FilterConcat<T>(a: seq<T>, b: seq<T>, keep: T -> bool)
    ensures Filter(a + b, keep) == Filter(a, keep) + Filter(b, keep)
  {
    if a != [] {
      assert (a + b)[1..] == a[1..] + b;
      FilterConcat(a[1..], b, keep);
    } else {
      assert a + b == b;
    }
  }

  /** A filter that rejects nothing returns its input unchanged. */
  lemma {:induction false} FilterKeepsAll<T>(xs: seq<T>, keep: T -> bool)
    requires forall i :: 0 <= i < |xs| ==> keep(xs[i])
    ensures Filter(xs, keep) == xs
  {
    if xs != [] {
      FilterKeepsAll(xs[1..], keep);
    }
  }

  /** Two filters that agree on every element give the same result. */
  lemma {:induction false} FilterCongruent<T>(xs: seq<T>, p: T -> bool, q: T -> bool)
    requires forall i :: 0 <= i < |xs| ==> p(xs[i]) == q(xs[i])
    ensures Filter(xs, p) == Filter(xs, q)
  {
    if xs != [] {
      FilterCongruent(xs[1..], p, q);
    }
  }
}
