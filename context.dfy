/**
 * The conversation history store: an append-only log of
 * `(user_id, role, content)` records, read back per user as that user's
 * most recent messages, oldest first.
 */
module Context {
  import Decimal

  /** How many messages a read returns at most. */
  const MaxContextHistory: nat := 8

  /** One row of the `context_history` table. */
  datatype Record = Record(userId: string, role: string, content: string)

  /** One `{"role": ..., "content": ...}` entry of a read. */
  datatype Message = Message(role: string, content: string)

  function MessageOf(r: Record): Message {
    Message(r.role, r.content)
  }

  /** The records of `u`, in insertion order, as messages. */
  function UserMessages(rows: seq<Record>, u: string): (ms: seq<Message>)
    ensures |ms| <= |rows|
  {
    if rows == [] then []
    else
      var last := rows[|rows| - 1];
      UserMessages(rows[..|rows| - 1], u) + (if last.userId == u then [MessageOf(last)] else [])
  }

  /** `context[-8:]` when the list is longer than 8, else the whole list. */
  function Recent(ms: seq<Message>): (r: seq<Message>)
    ensures |r| == if |ms| > MaxContextHistory then MaxContextHistory else |ms|
    ensures r == ms[|ms| - |r|..]
  {
    if |ms| > MaxContextHistory then ms[|ms| - MaxContextHistory..] else ms
  }

  class ContextStore {
    /** The table, in insertion order. */
    var rows: seq<Record>

    /** Opening a store sees whatever history the database already holds. */
    constructor(existing: seq<Record>)
      ensures rows == existing
    {
      rows := existing;
    }

    /** Inserts exactly one record at the end of the log. */
    method SaveMessage(userId: string, role: string, content: string)
      modifies this
      ensures rows == old(rows) + [Record(userId, role, content)]
    {
      rows := rows + [Record(userId, role, content)];
    }

    /** Selects the records of `userId` in order, then keeps the last eight. */
    method GetContext(userId: string) returns (context: seq<Message>)
      ensures context == Recent(UserMessages(rows, userId))
    {
      var all: seq<Message> := [];
      var i := 0;
      while i < |rows|
        invariant 0 <= i <= |rows|
        invariant all == UserMessages(rows[..i], userId)
      {
        assert rows[..i + 1][..i] == rows[..i];
        if rows[i].userId == userId {
          all := all + [Message(rows[i].role, rows[i].content)];
        }
        i := i + 1;
      }
      assert rows[..i] == rows;
      context := all;
      if |context| > MaxContextHistory {
        context := context[|context| - MaxContextHistory..];
      }
    }
  }

  /** Reading a log made of two parts reads each part in turn. */
  lemma {:induction false} UserMessagesAppend(a: seq<Record>, b: seq<Record>, u: string)
    ensures UserMessages(a + b, u) == UserMessages(a, u) + UserMessages(b, u)
    decreases |b|
  {
    if b == [] {
      assert a + b == a;
    } else {
      var b' := b[..|b| - 1];
      assert (a + b)[..|a + b| - 1] == a + b';
      UserMessagesAppend(a, b', u);
    }
  }

  /**
   * A message is read for `u` exactly when some record of `u` carries its
   * role and content unchanged.
   */
  lemma {:induction false} UserMessagesExactly(rows: seq<Record>, u: string, m: Message)
    ensures m in UserMessages(rows, u) <==> exists j :: 0 <= j < |rows| && rows[j].userId == u && MessageOf(rows[j]) == m
    decreases |rows|
  {
    if rows != [] {
      var init := rows[..|rows| - 1];
      UserMessagesExactly(init, u, m);
      if exists j :: 0 <= j < |init| && init[j].userId == u && MessageOf(init[j]) == m {
        var j :| 0 <= j < |init| && init[j].userId == u && MessageOf(init[j]) == m;
        assert rows[j] == init[j];
      }
      if exists j :: 0 <= j < |rows| && rows[j].userId == u && MessageOf(rows[j]) == m {
        var j :| 0 <= j < |rows| && rows[j].userId == u && MessageOf(rows[j]) == m;
        if j < |init| {
          assert init[j] == rows[j];
        }
      }
    }
  }

  /** Records of other users never change what `u` reads. */
  lemma OthersIgnored(a: seq<Record>, b: seq<Record>, c: seq<Record>, u: string)
    requires forall k :: 0 <= k < |b| ==> b[k].userId != u
    ensures UserMessages(a + b + c, u) == UserMessages(a + c, u)
  {
    assert UserMessages(b, u) == [] by { NoneOwn(b, u); }
    UserMessagesAppend(a + b, c, u);
    UserMessagesAppend(a, b, u);
    UserMessagesAppend(a, c, u);
  }

  lemma {:induction false} NoneOwn(b: seq<Record>, u: string)
    requires forall k :: 0 <= k < |b| ==> b[k].userId != u
    ensures UserMessages(b, u) == []
    decreases |b|
  {
    if b != [] {
      NoneOwn(b[..|b| - 1], u);
    }
  }

  /** When every record belongs to `u`, `u` reads every record, in order. */
  lemma {:induction false} AllOwn(rows: seq<Record>, u: string)
    requires forall k :: 0 <= k < |rows| ==> rows[k].userId == u
    ensures UserMessages(rows, u) == seq(|rows|, k requires 0 <= k < |rows| => MessageOf(rows[k]))
    decreases |rows|
  {
    if rows != [] {
      AllOwn(rows[..|rows| - 1], u);
    }
  }

  /** A save followed by a read of the same user returns the saved message last. */
  lemma SaveThenRead(rows: seq<Record>, u: string, role: string, content: string)
    ensures var r := Recent(UserMessages(rows + [Record(u, role, content)], u));
            |r| >= 1 && r[|r| - 1] == Message(role, content)
  {
    assert (rows + [Record(u, role, content)])[..|rows|] == rows;
  }

  /** `msg{i}` as the log of ten saves by one user writes it. */
  function Numbered(i: nat): Record {
    Record("user", "role", "msg" + Decimal.Digits(i))
  }

  /** Ten saves by one user: the read returns eight messages, the first being `msg2`. */
  lemma TenSaves()
    ensures var r := Recent(UserMessages(seq(10, i requires 0 <= i => Numbered(i)), "user"));
            |r| == MaxContextHistory && r[0].content == "msg2"
  {
    var rows := seq(10, i requires 0 <= i => Numbered(i));
    AllOwn(rows, "user");
    assert Decimal.Digits(2) == "2";
  }
}
