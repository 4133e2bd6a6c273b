/** The two SQLite tables of db_manager.py, as in-memory state: the reservation
    queue `studefi_queue` (rows in insertion order) and the set `dm_users`. */
module DbManager {

  /** Seconds since some epoch; SQLite's CURRENT_TIMESTAMP text compares in the same order. */
  type Timestamp = int

  /** One row of `studefi_queue(user_id, residence, email, timestamp, priority)`. */
  datatype QueueRow = QueueRow(userId: int, residence: string, email: string, timestamp: Timestamp, priority: int)

  /** Priority used when `add_to_queue` is called without one. */
  const DefaultPriority: int := 1

  /** `a` may be listed before `b` by `ORDER BY priority DESC, timestamp ASC`. */
  predicate ServedBefore(a: QueueRow, b: QueueRow) {
    a.priority > b.priority || (a.priority == b.priority && a.timestamp <= b.timestamp)
  }

  /** The rows are in the order `get_queue` promises. */
  predicate QueueOrdered(rows: seq<QueueRow>) {
    forall i, j :: 0 <= i < j < |rows| ==> ServedBefore(rows[i], rows[j])
  }

  /** Some row belongs to `userId`. */
  predicate Queued(rows: seq<QueueRow>, userId: int) {
    exists r :: r in rows && r.userId == userId
  }

  /** The table after `DELETE FROM studefi_queue WHERE user_id = ?`. */
  function Without(rows: seq<QueueRow>, userId: int): seq<QueueRow>
  {
    if rows == [] then []
    else (if rows[0].userId == userId then [] else [rows[0]]) + Without(rows[1..], userId)
  }

  /** A row survives the delete exactly when it was in the table and belongs to someone else. */
  lemma {:induction false} WithoutMembers(rows: seq<QueueRow>, userId: int, x: QueueRow)
    ensures x in Without(rows, userId) <==> x in rows && x.userId != userId
  {
    if rows != [] {
      assert rows == [rows[0]] + rows[1..];
      WithoutMembers(rows[1..], userId, x);
    }
  }

  /** Deleting from a table that starts with `row`. */
  lemma WithoutCons(row: QueueRow, rest: seq<QueueRow>, userId: int)
    ensures Without([row] + rest, userId) == (if row.userId == userId then [] else [row]) + Without(rest, userId)
  {
    assert ([row] + rest)[1..] == rest;
  }

  /** Deleting keeps the remaining rows in their table order. */
  lemma {:induction false} WithoutAppend(a: seq<QueueRow>, b: seq<QueueRow>, userId: int)
    ensures Without(a + b, userId) == Without(a, userId) + Without(b, userId)
  {
    if a == [] {
      assert a + b == b;
    } else {
      var kept := if a[0].userId == userId then [] else [a[0]];
      assert a == [a[0]] + a[1..];
      assert a + b == [a[0]] + (a[1..] + b);
      WithoutCons(a[0], a[1..] + b, userId);
      WithoutCons(a[0], a[1..], userId);
      WithoutAppend(a[1..], b, userId);
      assert kept + (Without(a[1..], userId) + Without(b, userId)) == (kept + Without(a[1..], userId)) + Without(b, userId);
    }
  }

  /** A delete keeps every row of another user as often as it occurred. */
  lemma {:induction false} WithoutCounts(rows: seq<QueueRow>, userId: int, x: QueueRow)
    ensures multiset(Without(rows, userId))[x] == if x.userId == userId then 0 else multiset(rows)[x]
  {
    if rows != [] {
      assert rows == [rows[0]] + rows[1..];
      WithoutCounts(rows[1..], userId, x);
    }
  }

  /** After a delete the user is no longer queued, and every other user still is exactly when they were. */
  lemma WithoutDequeues(rows: seq<QueueRow>, userId: int, other: int)
    ensures !Queued(Without(rows, userId), userId)
    ensures other != userId ==> (Queued(Without(rows, userId), other) <==> Queued(rows, other))
  {
    forall x | true ensures x in Without(rows, userId) <==> x in rows && x.userId != userId {
      WithoutMembers(rows, userId, x);
    }
  }

  /** Places `row` into an ordered queue after every row that is served no later than it. */
  function InsertRow(sorted: seq<QueueRow>, row: QueueRow): (r: seq<QueueRow>)
    requires QueueOrdered(sorted)
    ensures QueueOrdered(r)
    ensures multiset(r) == multiset(sorted) + multiset{row}
  {
    if sorted == [] then [row]
    else if ServedBefore(sorted[0], row) then
      var head, tail := sorted[0], sorted[1..];
      assert sorted == [head] + tail;
      var rest := InsertRow(tail, row);
      assert forall j :: 0 <= j < |rest| ==> ServedBefore(head, rest[j]) by {
        forall j | 0 <= j < |rest| ensures ServedBefore(head, rest[j]) {
          assert multiset(rest)[rest[j]] > 0;
          assert rest[j] in tail || rest[j] == row;
        }
      }
      [head] + rest
    else
      [row] + sorted
  }

  /** The head of an ordered queue carries the highest priority of all rows. */
  lemma HeadHasTopPriority(rows: seq<QueueRow>, r: QueueRow)
    requires QueueOrdered(rows) && r in rows
    ensures rows[0].priority >= r.priority
  {
  }

  class Store {
    /** `studefi_queue`, in insertion (rowid) order. */
    var queue: seq<QueueRow>
    /** `dm_users`, keyed by the primary key `user_id`. */
    var dmUsers: set<int>

    /** `init_db` on a fresh database file: both tables exist and are empty. */
    constructor ()
      ensures queue == [] && dmUsers == {}
    {
      queue := [];
      dmUsers := {};
    }

    /** `add_to_queue`: appends exactly one row, stamped with the current time `now`. */
    method AddToQueue(userId: int, residence: string, email: string, now: Timestamp, priority: int := DefaultPriority)
      modifies this`queue
      ensures queue == old(queue) + [QueueRow(userId, residence, email, now, priority)]
    {
      queue := queue + [QueueRow(userId, residence, email, now, priority)];
    }

    /** `remove_from_queue`: deletes every row of `userId` and no other row. */
    method RemoveFromQueue(userId: int)
      modifies this`queue
      ensures queue == Without(old(queue), userId)
    {
      queue := Without(queue, userId);
    }

    /** `get_queue`: all rows, by priority descending, then timestamp ascending. */
    method GetQueue() returns (rows: seq<QueueRow>)
      ensures QueueOrdered(rows)
      ensures multiset(rows) == multiset(queue)
    {
      rows := [];
      var i := 0;
      while i < |queue|
        invariant 0 <= i <= |queue|
        invariant QueueOrdered(rows)
        invariant multiset(rows) == multiset(queue[..i])
      {
        assert queue[..i + 1] == queue[..i] + [queue[i]];
        rows := InsertRow(rows, queue[i]);
        i := i + 1;
      }
      assert queue[..i] == queue;
    }

    /** `is_in_queue`: some row belongs to `userId`. */
    method IsInQueue(userId: int) returns (found: bool)
      ensures found <==> exists i :: 0 <= i < |queue| && queue[i].userId == userId
    {
      found := Queued(queue, userId);
    }

    /** `add_dm_user`: `INSERT OR IGNORE` on the primary key, so adding twice is adding once. */
    method AddDmUser(userId: int)
      modifies this`dmUsers
      ensures dmUsers == old(dmUsers) + {userId}
    {
      dmUsers := dmUsers + {userId};
    }

    /** `remove_dm_user`: that user is gone, the others stay. */
    method RemoveDmUser(userId: int)
      modifies this`dmUsers
      ensures dmUsers == old(dmUsers) - {userId}
    {
      dmUsers := dmUsers - {userId};
    }

    /** `get_all_dm_users`: exactly the stored ids. */
    method GetAllDmUsers() returns (users: set<int>)
      ensures forall u :: u in users <==> u in dmUsers
    {
      users := dmUsers;
    }

    /** `is_dm_user`. */
    method IsDmUser(userId: int) returns (enabled: bool)
      ensures enabled <==> userId in dmUsers
    {
      enabled := userId in dmUsers;
    }
  }
}
