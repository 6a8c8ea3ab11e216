/**
 * Asking another member for a connection: a duplicate lookup on the directed
 * pair (requester, requested member), then one insert into the
 * `connections` table with status `pending`.
 */
module Connections {
  import opened Platform

  /** A row of `connections`. */
  datatype Connection = Connection(userId: int, connectedUserId: int, status: string)

  /** Whether the directed pair `userId → connectedUserId` already has a row. */
  predicate Connected(rows: seq<Connection>, userId: int, connectedUserId: int)
  {
    exists i :: 0 <= i < |rows| && rows[i].userId == userId && rows[i].connectedUserId == connectedUserId
  }

  /** The duplicate lookup: the first row of the directed pair, if any. */
  function FindConnection(rows: seq<Connection>, userId: int, connectedUserId: int): (r: Option<Connection>)
    ensures r.Some? <==> Connected(rows, userId, connectedUserId)
    ensures r.Some? ==> r.value in rows && r.value.userId == userId && r.value.connectedUserId == connectedUserId
  {
    FindFirst(rows, (c: Connection) => c.userId == userId && c.connectedUserId == connectedUserId)
  }

  /** The table invariant the duplicate guard keeps: one row per directed pair. */
  ghost predicate OnePerDirectedPair(rows: seq<Connection>)
  {
    forall i, j :: 0 <= i < j < |rows| ==>
      !(rows[i].userId == rows[j].userId && rows[i].connectedUserId == rows[j].connectedUserId)
  }

  /** Appending a row for a directed pair that has none keeps one row per directed pair. */
  lemma AppendKeepsOnePerDirectedPair(rows: seq<Connection>, row: Connection)
    requires OnePerDirectedPair(rows)
    requires !Connected(rows, row.userId, row.connectedUserId)
    ensures OnePerDirectedPair(rows + [row])
  {
    var t := rows + [row];
    forall i, j | 0 <= i < j < |t|
      ensures !(t[i].userId == t[j].userId && t[i].connectedUserId == t[j].connectedUserId)
    {
      if j == |rows| {
        assert t[i] == rows[i];
      } else {
        assert t[i] == rows[i] && t[j] == rows[j];
      }
    }
  }

  /**
   * Only the forward direction is looked up: a row `b → a` neither creates
   * nor removes a duplicate of `a → b` when `a != b`.
   */
  lemma ReverseRowIgnored(rows: seq<Connection>, a: int, b: int, status: string)
    requires a != b
    ensures Connected(rows + [Connection(b, a, status)], a, b) == Connected(rows, a, b)
  {
    var t := rows + [Connection(b, a, status)];
    if Connected(t, a, b) {
      var i :| 0 <= i < |t| && t[i].userId == a && t[i].connectedUserId == b;
      assert i < |rows| && t[i] == rows[i];
    }
    if Connected(rows, a, b) {
      var i :| 0 <= i < |rows| && rows[i].userId == a && rows[i].connectedUserId == b;
      assert t[i] == rows[i];
    }
  }

  /** Once `a → b` is stored, asking again for `a → b` is a duplicate. */
  lemma ConnectedAfterAppend(rows: seq<Connection>, row: Connection)
    ensures Connected(rows + [row], row.userId, row.connectedUserId)
  {
    assert (rows + [row])[|rows|] == row;
  }

  /** The `connections` table. */
  class ConnectionTable {
    var rows: seq<Connection>

    constructor (initial: seq<Connection>)
      ensures rows == initial
    {
      rows := initial;
    }

    /** `POST /api/connections` for the member signed in as `subject`. */
    method Connect(users: seq<User>, subject: Option<string>, connectedUserId: int)
      returns (status: Outcome)
      modifies this
      ensures subject.None? ==> status == Unauthorized
      ensures subject.Some? && CurrentProfile(users, subject).None? ==> status == NotFound
      ensures (CurrentProfile(users, subject).Some?
               && Connected(old(rows), CurrentProfile(users, subject).value.id, connectedUserId)) ==>
        status == BadRequest
      ensures status != Ok ==> rows == old(rows)
      ensures status == Ok <==>
        CurrentProfile(users, subject).Some?
        && !Connected(old(rows), CurrentProfile(users, subject).value.id, connectedUserId)
      ensures status == Ok ==>
        rows == old(rows) + [Connection(CurrentProfile(users, subject).value.id, connectedUserId, "pending")]
      ensures OnePerDirectedPair(old(rows)) ==> OnePerDirectedPair(rows)
    {
      if subject.None? {
        return Unauthorized;
      }
      var profile := FindByClerkId(users, subject.value);
      if profile.None? {
        return NotFound;
      }
      var userId := profile.value.id;
      var existing := FindConnection(rows, userId, connectedUserId);
      if existing.Some? {
        return BadRequest;
      }
      var row := Connection(userId, connectedUserId, "pending");
      if OnePerDirectedPair(rows) {
        AppendKeepsOnePerDirectedPair(rows, row);
      }
      rows := rows + [row];
      status := Ok;
    }
  }
}
