/** The Room `messages` table and the queries the repository runs on it. */
module MessageDAO {
  import opened Models
  import opened Collections

  /** The primary key of a message row. */
  function EntityId(e: MessageEntity): int {
    e.id
  }

  /** A row sent by or to `name`. */
  predicate Concerns(e: MessageEntity, name: string) {
    e.from == name || e.to == name
  }

  lemma NonEmptyHasElement(s: set<int>)
    requires s != {}
    ensures exists y :: y in s
  {
    assert (forall y :: y !in s) ==> s == {};
  }

  lemma {:induction false} MaxExists(s: set<int>)
    requires s != {}
    ensures exists m :: m in s && forall x | x in s :: x <= m
  {
    NonEmptyHasElement(s);
    var y :| y in s;
    var rest := s - {y};
    if rest == {} {
      forall x | x in s ensures x <= y {
        assert x !in rest;
      }
    } else {
      MaxExists(rest);
      var m :| m in rest && forall x | x in rest :: x <= m;
      var top := if y > m then y else m;
      forall x | x in s ensures x <= top {
        if x != y { assert x in rest; }
      }
    }
  }

  /** The largest id of a non-empty set. */
  function MaxOf(s: set<int>): (m: int)
    requires s != {}
    ensures m in s && forall x | x in s :: x <= m
  {
    MaxExists(s);
    var m :| m in s && forall x | x in s :: x <= m; m
  }

  /** The ids of a finite set, largest first (`ORDER BY id DESC`). */
  function Descending(ids: set<int>): (r: seq<int>)
    ensures StrictlyDescending(r)
    ensures forall x :: x in r <==> x in ids
    ensures forall i | 0 <= i < |r| :: r[i] in ids
    decreases |ids|
  {
    if ids == {} then []
    else
      var m := MaxOf(ids);
      [m] + Descending(ids - {m})
  }

  /** The ids of the rows of `rows` that concern `name` and lie below `lastKnownId`. */
  function MatchingIds(rows: map<int, MessageEntity>, name: string, lastKnownId: int): set<int> {
    set id | id in rows && Concerns(rows[id], name) && id < lastKnownId
  }

  /** The first `limit` ids of `ids`, or all of them when `limit` is negative or large. */
  function Limited(ids: seq<int>, limit: int): (r: seq<int>)
    ensures 0 <= limit ==> |r| <= limit
    ensures r <= ids
    ensures |r| < |ids| ==> 0 <= limit && |r| == limit
  {
    if 0 <= limit < |ids| then ids[..limit] else ids
  }

  /** The rows the limited fallback query returns, for a table `rows`. */
  function Slice(rows: map<int, MessageEntity>, name: string, lastKnownId: int, limit: int): seq<MessageEntity> {
    var kept := Limited(Descending(MatchingIds(rows, name, lastKnownId)), limit);
    RowsAt(rows, kept)
  }

  /** The limited query returns stored rows of the name below the cursor, newest first, at most `limit`. */
  lemma SliceIsDescending(rows: map<int, MessageEntity>, name: string, lastKnownId: int, limit: int)
    requires Keyed(rows, EntityId)
    ensures var r := Slice(rows, name, lastKnownId, limit);
      forall i | 0 <= i < |r| ::
        r[i].id in rows && rows[r[i].id] == r[i] && Concerns(r[i], name) && r[i].id < lastKnownId
    ensures var r := Slice(rows, name, lastKnownId, limit);
      forall i, j | 0 <= i < j < |r| :: r[i].id > r[j].id
    ensures 0 <= limit ==> |Slice(rows, name, lastKnownId, limit)| <= limit
  {
    var ids := Descending(MatchingIds(rows, name, lastKnownId));
    var kept := Limited(ids, limit);
    var r := RowsAt(rows, kept);
    assert forall i | 0 <= i < |kept| :: kept[i] == ids[i];
    forall i | 0 <= i < |r|
      ensures r[i].id in rows && rows[r[i].id] == r[i] && Concerns(r[i], name) && r[i].id < lastKnownId
    {
      assert ids[i] in MatchingIds(rows, name, lastKnownId);
    }
  }

  /** A qualifying row is left out only when the limit is reached, and then it is older than the last one returned. */
  lemma SliceSkipsOnlyOlder(rows: map<int, MessageEntity>, name: string, lastKnownId: int, limit: int)
    requires Keyed(rows, EntityId)
    ensures var r := Slice(rows, name, lastKnownId, limit);
      forall id | id in rows && Concerns(rows[id], name) && id < lastKnownId && rows[id] !in r ::
        0 <= limit && |r| == limit && (|r| > 0 ==> id < r[|r| - 1].id)
  {
    var ids := Descending(MatchingIds(rows, name, lastKnownId));
    var kept := Limited(ids, limit);
    var r := RowsAt(rows, kept);
    forall id | id in rows && Concerns(rows[id], name) && id < lastKnownId && rows[id] !in r
      ensures 0 <= limit && |r| == limit && (|r| > 0 ==> id < r[|r| - 1].id)
    {
      assert id in MatchingIds(rows, name, lastKnownId);
      var p :| 0 <= p < |ids| && ids[p] == id;
      forall i | 0 <= i < |kept|
        ensures ids[i] != id
      {
        assert kept[i] == ids[i] && r[i] == rows[kept[i]];
        assert r[i] in r;
      }
      assert |kept| <= p;
      if |r| > 0 {
        var q := |kept| - 1;
        assert kept[q] == ids[q] && r[q] == rows[ids[q]];
        assert EntityId(rows[ids[q]]) == ids[q];
        assert ids[q] > ids[p];
      }
    }
  }

  /** The rows of the unlimited query, for a table `rows`. */
  /** The ids of the rows of `rows` that concern `name`. */
  function ConcerningIds(rows: map<int, MessageEntity>, name: string): set<int> {
    set id | id in rows && Concerns(rows[id], name)
  }

  function AllConcerning(rows: map<int, MessageEntity>, name: string): seq<MessageEntity> {
    RowsAt(rows, Descending(ConcerningIds(rows, name)))
  }

  lemma AllConcerningIsComplete(rows: map<int, MessageEntity>, name: string)
    requires Keyed(rows, EntityId)
    ensures var r := AllConcerning(rows, name);
      forall i | 0 <= i < |r| :: r[i].id in rows && rows[r[i].id] == r[i] && Concerns(r[i], name)
    ensures var r := AllConcerning(rows, name);
      forall id | id in rows && Concerns(rows[id], name) :: rows[id] in r
    ensures var r := AllConcerning(rows, name);
      forall i, j | 0 <= i < j < |r| :: r[i].id > r[j].id
  {
    var ids := Descending(ConcerningIds(rows, name));
    var r := RowsAt(rows, ids);
    forall i | 0 <= i < |r|
      ensures r[i].id in rows && rows[r[i].id] == r[i] && Concerns(r[i], name)
    {
      assert ids[i] in ConcerningIds(rows, name);
      assert r[i] == rows[ids[i]];
    }
    forall id | id in rows && Concerns(rows[id], name) ensures rows[id] in r {
      assert id in ConcerningIds(rows, name);
      var i :| 0 <= i < |ids| && ids[i] == id;
      assert r[i] == rows[id];
    }
    forall i, j | 0 <= i < j < |r| ensures r[i].id > r[j].id {
      assert ids[i] in ConcerningIds(rows, name) && ids[j] in ConcerningIds(rows, name);
      assert r[i] == rows[ids[i]] && r[j] == rows[ids[j]];
    }
  }


  class MessageDao {
    /** The table, each row under its primary key. */
    var rows: map<int, MessageEntity>

    ghost predicate Valid()
      reads this
    {
      Keyed(rows, EntityId)
    }

    constructor ()
      ensures Valid() && rows == map[]
    {
      rows := map[];
    }

    /** The unlimited query: every row of the conversation, newest first. */
    function GetMessagesByName(name: string): (r: seq<MessageEntity>)
      reads this
      requires Valid()
      ensures forall i | 0 <= i < |r| :: r[i].id in rows && rows[r[i].id] == r[i] && Concerns(r[i], name)
      ensures forall id | id in rows && Concerns(rows[id], name) :: rows[id] in r
      ensures forall i, j | 0 <= i < j < |r| :: r[i].id > r[j].id
    {
      AllConcerningIsComplete(rows, name);
      AllConcerning(rows, name)
    }

    /**
     * The cache query used as the offline fallback:
     * matching rows with `id < lastKnownId`, `ORDER BY id DESC LIMIT :limit`.
     * SQLite reads a negative LIMIT as "no limit".
     */
    function GetMessagesByNameWithLimit(name: string, lastKnownId: int, limit: int): (r: seq<MessageEntity>)
      reads this
      requires Valid()
      ensures forall i | 0 <= i < |r| ::
        r[i].id in rows && rows[r[i].id] == r[i] && Concerns(r[i], name) && r[i].id < lastKnownId
      ensures forall i, j | 0 <= i < j < |r| :: r[i].id > r[j].id
      ensures 0 <= limit ==> |r| <= limit
      ensures forall id | id in rows && Concerns(rows[id], name) && id < lastKnownId && rows[id] !in r ::
        0 <= limit && |r| == limit && (|r| > 0 ==> id < r[|r| - 1].id)
    {
      SliceIsDescending(rows, name, lastKnownId, limit);
      SliceSkipsOnlyOlder(rows, name, lastKnownId, limit);
      Slice(rows, name, lastKnownId, limit)
    }

    /** Insert with replace-on-conflict: each row replaces the one with its id. */
    method InsertMessages(messages: seq<MessageEntity>)
      requires Valid()
      modifies this
      ensures Valid()
      ensures rows == UpsertAll(old(rows), messages, EntityId)
    {
      var i := 0;
      while i < |messages|
        invariant 0 <= i <= |messages|
        invariant rows == UpsertAll(old(rows), messages[..i], EntityId)
      {
        assert messages[..i + 1][..i] == messages[..i];
        rows := rows[messages[i].id := messages[i]];
        i := i + 1;
      }
      assert messages[..i] == messages;
      UpsertKeepsKeyed(old(rows), messages, EntityId);
    }

    /** Deletes every row whose id is not among the given ids. */
    method DeleteOldMessages(messageIds: seq<int>)
      requires Valid()
      modifies this
      ensures Valid()
      ensures forall id :: id in rows <==> id in old(rows) && id in messageIds
      ensures forall id | id in rows :: rows[id] == old(rows)[id]
    {
      rows := map id | id in rows && id in messageIds :: rows[id];
    }
  }
}
