/** MessageRepository: Send, Get, GetChatMessages, GetNewChatMessages and Delete over the Message table. */
module MessageRepository {
  import opened Common
  import opened Entities
  import opened Storage
  import opened MessageValidator

  /** Gives the message its id and send time (Guid.NewGuid() and DateTime.Now are parameters). */
  method AddUserData(message: Message, freshId: Id, now: int)
    modifies message
    ensures message.Row() == old(message.Row()).(id := freshId, date := now)
  {
    message.id := freshId;
    message.date := now;
  }

  /**
   * Validation throws: the fault propagates, nothing stored, the message untouched.
   * Invalid: null, nothing stored, the message's Id and Date untouched. Valid: Id and
   * Date are set once, after validation, and the same object is returned with
   * everything else as the caller gave it. The row stored is the object's, except that
   * the Date column keeps dateColumn(now): the Date parameter is bound as SQL datetime,
   * which rounds to 1/300 s, so the object's Date and the stored one can differ.
   */
  method Send(store: Store, message: Message?, freshId: Id, now: int, dateColumn: int -> int)
    returns (r: Outcome<Message?>)
    requires store.Valid()
    requires freshId != Empty && freshId !in store.messages
    modifies store, message
    ensures store.Valid()
    ensures var v := ValidateMessageInput(old(store.Db()), old(MessageInput(message)));
      v.Threw? ==>
        && r == Threw(v.fault)
        && store.Db() == old(store.Db())
        && (message != null ==> message.Row() == old(message.Row()))
    ensures ValidateMessageInput(old(store.Db()), old(MessageInput(message))) == Returned(false) ==>
      && r == Returned(null)
      && store.Db() == old(store.Db())
      && (message != null ==> message.Row() == old(message.Row()))
    ensures ValidateMessageInput(old(store.Db()), old(MessageInput(message))) == Returned(true) ==>
      && r == Returned(message) && message != null
      && message.Row() == old(message.Row()).(id := freshId, date := now)
      && store.Db() == old(store.Db()).(messages := old(store.messages)[freshId := message.Row().(date := dateColumn(now))])
  {
    var valid := ValidateMessageInput(store.Db(), MessageInput(message));
    if valid.Threw? {
      return Threw(valid.fault);
    }
    if !valid.value {
      return Returned(null);
    }
    AddUserData(message, freshId, now);
    store.messages := store.messages[freshId := message.Row().(date := dateColumn(now))];
    r := Returned(message);
  }

  /** The stored message with that id, or null. */
  method Get(store: Store, messageId: Id) returns (r: Option<MessageRow>)
    requires store.Valid()
    ensures r.Some? <==> messageId in store.messages
    ensures r.Some? ==> r.value == store.messages[messageId] && r.value.id == messageId
  {
    if messageId in store.messages {
      r := Some(store.messages[messageId]);
    } else {
      r := None;
    }
  }

  /** The ids of the stored messages of a chat. */
  function ChatMessageIds(t: Tables, chatId: Id): set<Id>
  {
    set k | k in t.messages && t.messages[k].chatId == chatId
  }

  /** Each entry of s is a stored row, and no row appears twice. */
  predicate StoredAndDistinct(t: Tables, s: seq<MessageRow>)
  {
    && (forall i :: 0 <= i < |s| ==> s[i].id in t.messages && t.messages[s[i].id] == s[i])
    && (forall i, j :: 0 <= i < j < |s| ==> s[i].id != s[j].id)
  }

  /** SELECT * FROM [Message] WHERE [ChatId] = @chatId, rows in no particular order. */
  method GetChatMessages(store: Store, chatId: Id) returns (r: seq<MessageRow>)
    requires store.Valid()
    ensures StoredAndDistinct(store.Db(), r)
    ensures forall i :: 0 <= i < |r| ==> r[i].chatId == chatId
    ensures forall k :: k in ChatMessageIds(store.Db(), chatId) ==> exists i :: 0 <= i < |r| && r[i].id == k
  {
    var rest := store.messages.Keys;
    r := [];
    while rest != {}
      invariant rest <= store.messages.Keys
      invariant StoredAndDistinct(store.Db(), r)
      invariant forall i :: 0 <= i < |r| ==> r[i].chatId == chatId && r[i].id !in rest
      invariant forall k :: k in ChatMessageIds(store.Db(), chatId) && k !in rest ==>
        exists i :: 0 <= i < |r| && r[i].id == k
      decreases rest
    {
      var k :| k in rest;
      ghost var before := r;
      if store.messages[k].chatId == chatId {
        r := r + [store.messages[k]];
        assert r[|r| - 1].id == k;
      }
      forall x | x in ChatMessageIds(store.Db(), chatId) && x !in rest - {k}
        ensures exists i :: 0 <= i < |r| && r[i].id == x
      {
        if x != k {
          var i :| 0 <= i < |before| && before[i].id == x;
          assert r[i] == before[i];
        }
      }
      rest := rest - {k};
    }
  }

  /** C# int subtraction: the mathematical difference wrapped into 32 bits. */
  function Int32Sub(a: int, b: int): (r: int)
    ensures -0x8000_0000 <= r < 0x8000_0000
    ensures -0x8000_0000 <= a - b < 0x8000_0000 ==> r == a - b
  {
    (a - b + 0x8000_0000) % 0x1_0000_0000 - 0x8000_0000
  }

  /** The id of a latest-dated message among ids (ties broken arbitrarily, as ORDER BY does). */
  method Newest(messages: map<Id, MessageRow>, ids: set<Id>) returns (best: Id)
    requires ids != {} && ids <= messages.Keys
    ensures best in ids
    ensures forall k :: k in ids ==> messages[k].date <= messages[best].date
  {
    best :| best in ids;
    var rest := ids - {best};
    while rest != {}
      invariant rest <= ids && best in ids
      invariant forall k :: k in ids && k !in rest ==> messages[k].date <= messages[best].date
      decreases rest
    {
      var k :| k in rest;
      if messages[k].date > messages[best].date {
        best := k;
      }
      rest := rest - {k};
    }
  }

  /** The ids of the rows of s. */
  function Ids(s: seq<MessageRow>): set<Id>
  {
    if s == [] then {} else Ids(s[..|s| - 1]) + {s[|s| - 1].id}
  }

  lemma IdsAppend(s: seq<MessageRow>, x: MessageRow)
    ensures Ids(s + [x]) == Ids(s) + {x.id}
  {
    assert (s + [x])[..|s|] == s;
  }

  /**
   * s holds the take newest messages among ids, newest first: stored rows, no id twice,
   * dates not increasing, and no message of ids left out is newer than one taken.
   */
  predicate NewestOf(messages: map<Id, MessageRow>, ids: set<Id>, take: nat, s: seq<MessageRow>)
  {
    && ids <= messages.Keys
    && |s| == take
    && (forall i :: 0 <= i < |s| ==> s[i].id in ids && messages[s[i].id] == s[i])
    && (forall i, j :: 0 <= i < j < |s| ==> s[i].id != s[j].id)
    && (forall i, j :: 0 <= i < j < |s| ==> s[i].date >= s[j].date)
    && (forall k, i :: k in ids - Ids(s) && 0 <= i < |s| ==> messages[k].date <= s[i].date)
  }

  /** Repeatedly takes a newest remaining message: the ORDER BY [Date] DESC of the query. */
  method TakeNewest(messages: map<Id, MessageRow>, ids: set<Id>, take: nat) returns (s: seq<MessageRow>)
    requires ids <= messages.Keys && take <= |ids|
    requires forall k :: k in messages ==> messages[k].id == k
    ensures NewestOf(messages, ids, take, s)
  {
    var pool := ids;
    s := [];
    while |s| < take
      invariant pool <= ids && |s| + |pool| == |ids| && |s| <= take
      invariant pool == ids - Ids(s)
      invariant forall i :: 0 <= i < |s| ==> s[i].id in ids && s[i].id !in pool && messages[s[i].id] == s[i]
      invariant forall i, j :: 0 <= i < j < |s| ==> s[i].id != s[j].id
      invariant forall i, j :: 0 <= i < j < |s| ==> s[i].date >= s[j].date
      invariant forall k, i :: k in pool && 0 <= i < |s| ==> messages[k].date <= s[i].date
      decreases take - |s|
    {
      var best := Newest(messages, pool);
      IdsAppend(s, messages[best]);
      s := s + [messages[best]];
      pool := pool - {best};
    }
  }

  /**
   * n = (messages in the chat) - current, in 32-bit arithmetic. n == 0: empty. n < 0:
   * the database refuses the negative TOP. Otherwise the n newest messages of the chat
   * (all of them when there are fewer), newest first.
   */
  method GetNewChatMessages(store: Store, chatId: Id, current: int) returns (r: Outcome<seq<MessageRow>>)
    requires store.Valid()
    requires -0x8000_0000 <= current < 0x8000_0000
    ensures var ids := ChatMessageIds(store.Db(), chatId);
      var n := Int32Sub(|ids|, current);
      && (n == 0 ==> r == Returned([]))
      && (n < 0 ==> r == Threw(NegativeTop))
      && (n > 0 ==> r.Returned? && NewestOf(store.messages, ids, if n < |ids| then n else |ids|, r.value))
  {
    var ids := ChatMessageIds(store.Db(), chatId);
    var n := Int32Sub(|ids|, current);
    if n == 0 {
      return Returned([]);
    }
    if n < 0 {
      return Threw(NegativeTop);
    }
    var s := TakeNewest(store.messages, ids, if n < |ids| then n else |ids|);
    r := Returned(s);
  }

  /** False (nothing changes) for an unknown id; otherwise the row is removed and true returned. */
  method Delete(store: Store, messageId: Id) returns (deleted: bool)
    requires store.Valid()
    modifies store
    ensures store.Valid()
    ensures deleted <==> messageId in old(store.messages)
    ensures store.Db() == old(store.Db()).(messages := old(store.messages) - {messageId})
    ensures messageId !in store.messages
  {
    var found := Get(store, messageId);
    if found.None? {
      return false;
    }
    store.messages := store.messages - {messageId};
    deleted := true;
  }
}
