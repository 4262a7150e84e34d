/** The Room `chats_or_channels` table. */
module ChatDAO {
  import opened Models
  import opened Collections

  /** The primary key of a conversation row. */
  function ChatName(e: ChatEntity): string {
    e.name
  }

  /** `order` without `name`, the rest kept in order. */
  function Without(order: seq<string>, name: string): (r: seq<string>)
    ensures forall n :: n in r <==> n in order && n != name
    ensures NoDuplicates(order) ==> NoDuplicates(r)
  {
    if order == [] then []
    else
      var rest := Without(order[1..], name);
      assert forall n | n in order[1..] :: n in order;
      if order[0] == name then rest
      else
        assert NoDuplicates(order) ==> order[0] !in order[1..] by {
          if NoDuplicates(order) {
            forall j | 0 <= j < |order[1..]| ensures order[1..][j] != order[0] {
              assert order[1..][j] == order[j + 1];
            }
          }
        }
        [order[0]] + rest
  }

  /** Every pair of `r` occurs in `order` in the same order. */
  ghost predicate InOrderWithin(r: seq<string>, order: seq<string>) {
    forall i, j | 0 <= i < j < |r| :: exists a, b :: 0 <= a < b < |order| && order[a] == r[i] && order[b] == r[j]
  }

  lemma PairWithin(r: seq<string>, order: seq<string>, i: nat, j: nat)
    requires InOrderWithin(r, order) && i < j < |r|
    ensures exists a, b :: 0 <= a < b < |order| && order[a] == r[i] && order[b] == r[j]
  {
    var x, y := r[i], r[j];
    assert exists a, b :: 0 <= a < b < |order| && order[a] == x && order[b] == y;
  }

  /** A pair in order in the tail of `order` is in order in `order`. */
  lemma PairInTail(order: seq<string>, x: string, y: string)
    requires order != []
    requires exists a, b :: 0 <= a < b < |order[1..]| && order[1..][a] == x && order[1..][b] == y
    ensures exists a, b :: 0 <= a < b < |order| && order[a] == x && order[b] == y
  {
    var a, b :| 0 <= a < b < |order[1..]| && order[1..][a] == x && order[1..][b] == y;
    assert order[a + 1] == x && order[b + 1] == y;
  }

  /** Removing a name keeps the others in their relative order. */
  lemma {:induction false} WithoutKeepsOrder(order: seq<string>, name: string)
    ensures InOrderWithin(Without(order, name), order)
  {
    if order != [] {
      var tail := order[1..];
      var rest := Without(tail, name);
      var r := Without(order, name);
      WithoutKeepsOrder(tail, name);
      forall i, j | 0 <= i < j < |r|
        ensures exists a, b :: 0 <= a < b < |order| && order[a] == r[i] && order[b] == r[j]
      {
        if order[0] == name {
          assert r == rest;
          PairWithin(rest, tail, i, j);
          PairInTail(order, r[i], r[j]);
        } else if i == 0 {
          assert r == [order[0]] + rest && r[j] == rest[j - 1];
          assert rest[j - 1] in rest;
          var b :| 0 <= b < |tail| && tail[b] == r[j];
          assert order[0] == r[0] && order[b + 1] == r[j];
        } else {
          assert r == [order[0]] + rest && r[i] == rest[i - 1] && r[j] == rest[j - 1];
          PairWithin(rest, tail, i - 1, j - 1);
          PairInTail(order, r[i], r[j]);
        }
      }
    }
  }

  /** The storage order after writing `batch` row by row: each written name moves to the end. */
  function OrderAfter(order: seq<string>, batch: seq<ChatEntity>): (r: seq<string>)
    ensures forall n :: n in r <==> n in order || n in KeysOf(batch, ChatName)
  {
    if batch == [] then order
    else
      var last := batch[|batch| - 1];
      var front := batch[..|batch| - 1];
      assert KeysOf(batch, ChatName) == KeysOf(front, ChatName) + {last.name} by {
        forall k | k in KeysOf(batch, ChatName)
          ensures k in KeysOf(front, ChatName) + {last.name}
        {
          var i :| 0 <= i < |batch| && batch[i].name == k;
          if i < |front| { assert front[i] == batch[i]; }
        }
      }
      Without(OrderAfter(order, front), last.name) + [last.name]
  }

  /** The stored rows owned by `owner`, in storage order. */
  function OwnedRowsIn(rows: map<string, ChatEntity>, order: seq<string>, owner: string): (r: seq<ChatEntity>)
    requires forall i | 0 <= i < |order| :: order[i] in rows
    ensures forall i | 0 <= i < |r| :: r[i].owner == owner && exists k :: 0 <= k < |order| && r[i] == rows[order[k]]
    ensures forall k | 0 <= k < |order| && rows[order[k]].owner == owner :: rows[order[k]] in r
  {
    if order == [] then []
    else
      var rest := OwnedRowsIn(rows, order[1..], owner);
      assert forall i | 0 <= i < |rest| :: exists k :: 0 <= k < |order| && rest[i] == rows[order[k]] by {
        forall i | 0 <= i < |rest| ensures exists k :: 0 <= k < |order| && rest[i] == rows[order[k]] {
          var k :| 0 <= k < |order[1..]| && rest[i] == rows[order[1..][k]];
          assert rest[i] == rows[order[k + 1]];
        }
      }
      assert forall k | 1 <= k < |order| && rows[order[k]].owner == owner :: rows[order[k]] in rest by {
        forall k | 1 <= k < |order| && rows[order[k]].owner == owner ensures rows[order[k]] in rest {
          assert order[k] == order[1..][k - 1];
        }
      }
      if rows[order[0]].owner == owner then [rows[order[0]]] + rest else rest
  }

  class ChatDao {
    /** The table, each row under its primary key `name`. */
    var rows: map<string, ChatEntity>
    /** The keys in storage (rowid) order; a replaced row moves to the end. */
    var order: seq<string>

    ghost predicate Valid()
      reads this
    {
      && Keyed(rows, ChatName)
      && NoDuplicates(order)
      && (forall n :: n in order <==> n in rows)
    }

    constructor ()
      ensures Valid() && rows == map[] && order == []
    {
      rows := map[];
      order := [];
    }

    /** The unfiltered query over the table: every row once. */
    function GetAllChatsOrChannels(): (r: seq<ChatEntity>)
      reads this
      requires Valid()
      ensures forall i | 0 <= i < |r| :: r[i].name in rows && rows[r[i].name] == r[i]
      ensures forall n | n in rows :: rows[n] in r
      ensures |r| == |order| && forall i, j | 0 <= i < j < |r| :: r[i].name != r[j].name
    {
      var r := RowsAt(rows, order);
      assert forall n | n in rows :: rows[n] in r by {
        forall n | n in rows ensures rows[n] in r {
          var i :| 0 <= i < |order| && order[i] == n;
          assert r[i] == rows[n];
        }
      }
      r
    }

    /** The query for the rows owned by one user. */
    function GetMyChats(username: string): (r: seq<ChatEntity>)
      reads this
      requires Valid()
      ensures forall i | 0 <= i < |r| :: r[i].name in rows && rows[r[i].name] == r[i] && r[i].owner == username
      ensures forall n | n in rows && rows[n].owner == username :: rows[n] in r
    {
      var r := OwnedRowsIn(rows, order, username);
      assert forall n | n in rows && rows[n].owner == username :: rows[n] in r by {
        forall n | n in rows && rows[n].owner == username ensures rows[n] in r {
          var i :| 0 <= i < |order| && order[i] == n;
        }
      }
      assert forall i | 0 <= i < |r| :: r[i].name in rows && rows[r[i].name] == r[i] by {
        forall i | 0 <= i < |r| ensures r[i].name in rows && rows[r[i].name] == r[i] {
          var k :| 0 <= k < |order| && r[i] == rows[order[k]];
        }
      }
      r
    }

    /** Writes one row: it replaces the row with its name and moves to the end. */
    method Upsert(e: ChatEntity)
      requires Valid()
      modifies this
      ensures Valid()
      ensures rows == old(rows)[e.name := e]
      ensures order == Without(old(order), e.name) + [e.name]
    {
      var kept := Without(order, e.name);
      assert e.name !in kept;
      assert NoDuplicates(kept + [e.name]) by {
        forall i, j | 0 <= i < j < |kept| + 1 ensures (kept + [e.name])[i] != (kept + [e.name])[j] {
          if j == |kept| { assert (kept + [e.name])[i] == kept[i]; }
        }
      }
      rows := rows[e.name := e];
      order := kept + [e.name];
    }

    /** Insert with replace-on-conflict: each row replaces the one with its name. */
    method InsertChatsOrChannels(chats: seq<ChatEntity>)
      requires Valid()
      modifies this
      ensures Valid()
      ensures rows == UpsertAll(old(rows), chats, ChatName)
      ensures order == OrderAfter(old(order), chats)
    {
      var i := 0;
      while i < |chats|
        invariant 0 <= i <= |chats|
        invariant Valid()
        invariant rows == UpsertAll(old(rows), chats[..i], ChatName)
        invariant order == OrderAfter(old(order), chats[..i])
      {
        assert chats[..i + 1][..i] == chats[..i];
        Upsert(chats[i]);
        i := i + 1;
      }
      assert chats[..i] == chats;
    }
  }
}
