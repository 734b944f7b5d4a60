/**
 * ChatRepository: Create (header and membership links as one unit), Get (members
 * looked up again through their links), GetUserChats, Delete, and the member-id text
 * used in its log lines.
 */
module ChatRepository {
  import opened Common
  import opened Entities
  import opened Storage
  import opened ChatValidator

  /** The store after CreateChat: the chat's header and one link per member, in member order. */
  function WithChat(t: Tables, d: ChatData): (r: Tables)
    requires d.members.Some?
    ensures r.chats == t.chats[d.id := d.Header()]
    ensures r.chatMembers == t.chatMembers[d.id := MemberIds(d.members.value)]
    ensures r.users == t.users && r.attachments == t.attachments && r.messages == t.messages
  {
    t.(chats := t.chats[d.id := d.Header()], chatMembers := t.chatMembers[d.id := MemberIds(d.members.value)])
  }

  /** A stored chat whose linked users are all still stored, as Get returns it. */
  function View(t: Tables, chatId: Id): (v: ChatView)
    requires Consistent(t) && chatId in t.chats && LinksStored(t, chatId)
    ensures v.header == t.chats[chatId] && MemberIds(v.members) == t.chatMembers[chatId]
    ensures forall i :: 0 <= i < |v.members| ==> v.members[i] == t.users[t.chatMembers[chatId][i]]
  {
    var links := t.chatMembers[chatId];
    var v := ChatView(t.chats[chatId], seq(|links|, i requires 0 <= i < |links| => t.users[links[i]]));
    assert MemberIds(v.members) == links;
    v
  }

  /**
   * Validation throws: the fault propagates and nothing is stored. Invalid: null and
   * nothing is stored. Valid: the header and the links are inserted together and the
   * same object returned. Either way the object keeps the validator's rewrites.
   */
  method Create(store: Store, chat: Chat?, freshId: Id) returns (r: Outcome<Chat?>)
    requires store.Valid()
    requires freshId != Empty && freshId !in store.chats
    modifies store, chat
    ensures store.Valid()
    ensures var v := ValidateChat(old(store.Db()), store.queries, old(ChatInput(chat)), freshId);
      && ChatInput(chat) == v.chat
      && (v.result.Threw? ==> r == Threw(v.result.fault) && store.Db() == old(store.Db()))
      && (v.result == Returned(false) ==> r == Returned(null) && store.Db() == old(store.Db()))
      && (v.result == Returned(true) ==> r == Returned(chat) && store.Db() == WithChat(old(store.Db()), v.chat.value))
  {
    var valid := ChatValidator.ValidateChatInputAndAddData(store, chat, freshId);
    if valid.Threw? {
      return Threw(valid.fault);
    }
    if !valid.value {
      return Returned(null);
    }
    store.chats := store.chats[chat.id := chat.Data().Header()];
    store.chatMembers := store.chatMembers[chat.id := MemberIds(chat.members.value)];
    r := Returned(chat);
  }

  /** The linked users of a chat, each looked up again; null for one no longer stored. */
  method RetrieveChatMembers(store: Store, links: seq<Id>) returns (members: seq<Option<UserRow>>)
    ensures |members| == |links|
    ensures forall i :: 0 <= i < |links| ==>
      members[i] == if links[i] in store.users then Some(store.users[links[i]]) else None
  {
    members := [];
    for i := 0 to |links|
      invariant |members| == i
      invariant forall j :: 0 <= j < i ==>
        members[j] == if links[j] in store.users then Some(store.users[links[j]]) else None
    {
      var member := if links[i] in store.users then Some(store.users[links[i]]) else None;
      members := members + [member];
    }
  }

  /** No element of a member list is null. */
  predicate AllFound(members: seq<Option<UserRow>>)
  {
    forall i :: 0 <= i < |members| ==> members[i].Some?
  }

  /** A member list with no null element, unwrapped. */
  function Found(members: seq<Option<UserRow>>): (r: seq<UserRow>)
    requires AllFound(members)
    ensures |r| == |members| && forall i :: 0 <= i < |members| ==> members[i] == Some(r[i])
  {
    seq(|members|, i requires 0 <= i < |members| => members[i].value)
  }

  /**
   * null for an unknown id. Otherwise the members are looked up again through the
   * links, null for a user no longer stored, and the "Chat found" log line lists
   * their ids: a null member there throws, and nothing catches it. Guid formatting
   * is the parameter idText.
   */
  method Get(store: Store, chatId: Id, idText: Id -> string) returns (r: Outcome<Option<ChatView>>)
    requires store.Valid()
    ensures chatId !in store.chats ==> r == Returned(None)
    ensures chatId in store.chats && !LinksStored(store.Db(), chatId) ==> r == Threw(NullReference)
    ensures chatId in store.chats && LinksStored(store.Db(), chatId) ==>
      r == Returned(Some(View(store.Db(), chatId))) && r.value.value.header.id == chatId
  {
    if chatId !in store.chats {
      return Returned(None);
    }
    var links := store.chatMembers[chatId];
    var members := RetrieveChatMembers(store, links);
    var logged := RepresentChatMembersAsStringOfIds(Some(members), idText);
    if logged.Threw? {
      var i :| 0 <= i < |members| && members[i].None?;
      assert links[i] in links && links[i] !in store.users;
      return Threw(logged.fault);
    }
    forall u | u in links
      ensures u in store.users
    {
      var i :| 0 <= i < |links| && links[i] == u;
      assert members[i].Some?;
    }
    var view := ChatView(store.chats[chatId], Found(members));
    assert view == View(store.Db(), chatId);
    r := Returned(Some(view));
  }

  /** The chat ids of a list of views. */
  function ViewIds(r: seq<ChatView>): (ids: seq<Id>)
    ensures |ids| == |r| && forall i :: 0 <= i < |r| ==> ids[i] == r[i].header.id
  {
    seq(|r|, i requires 0 <= i < |r| => r[i].header.id)
  }

  /** One copy of the chat's view for every link of the chat to the user. */
  method LinkedViews(view: ChatView, links: seq<Id>, userId: Id) returns (added: seq<ChatView>)
    ensures forall i :: 0 <= i < |added| ==> added[i] == view
    ensures forall x :: multiset(ViewIds(added))[x] == if x == view.header.id then multiset(links)[userId] else 0
  {
    added := [];
    for j := 0 to |links|
      invariant forall i :: 0 <= i < |added| ==> added[i] == view
      invariant forall x :: multiset(ViewIds(added))[x] == if x == view.header.id then multiset(links[..j])[userId] else 0
    {
      assert links[..j + 1] == links[..j] + [links[j]];
      if links[j] == userId {
        assert ViewIds(added + [view]) == ViewIds(added) + [view.header.id];
        added := added + [view];
      }
    }
    assert links[..|links|] == links;
  }

  /**
   * One chat per membership link of the user, each fetched by Get: every chat appears
   * as often as the user is linked to it and no other chat appears. If Get throws for
   * one of the user's chats, because it links a user who is gone, the whole call throws.
   */
  method GetUserChats(store: Store, userId: Id, idText: Id -> string) returns (r: Outcome<seq<ChatView>>)
    requires store.Valid()
    ensures r.Threw? <==> exists c :: c in store.chats && userId in store.chatMembers[c] && !LinksStored(store.Db(), c)
    ensures r.Threw? ==> r.fault == NullReference
    ensures r.Returned? ==> forall i :: 0 <= i < |r.value| ==>
      var c := r.value[i].header.id; c in store.chats && LinksStored(store.Db(), c) && r.value[i] == View(store.Db(), c)
    ensures r.Returned? ==> forall c :: c in store.chats ==>
      multiset(ViewIds(r.value))[c] == multiset(store.chatMembers[c])[userId]
  {
    var t := store.Db();
    var rest := store.chats.Keys;
    var views: seq<ChatView> := [];
    while rest != {}
      invariant rest <= store.chats.Keys
      invariant forall c :: c in store.chats && c !in rest && userId in store.chatMembers[c] ==> LinksStored(t, c)
      invariant forall i :: 0 <= i < |views| ==>
        var c := views[i].header.id; c in store.chats && LinksStored(t, c) && views[i] == View(t, c)
      invariant forall c :: c in store.chats ==>
        multiset(ViewIds(views))[c] == if c in rest then 0 else multiset(store.chatMembers[c])[userId]
      decreases rest
    {
      var c :| c in rest;
      if userId in store.chatMembers[c] {
        var found := Get(store, c, idText);
        if found.Threw? {
          return Threw(found.fault);
        }
        var added := LinkedViews(found.value.value, store.chatMembers[c], userId);
        assert ViewIds(views + added) == ViewIds(views) + ViewIds(added);
        views := views + added;
      }
      rest := rest - {c};
    }
    r := Returned(views);
  }

  /**
   * false for an unknown id, nothing changed. Otherwise the chat is fetched by Get
   * first, so a chat that links a user who is gone throws and is not deleted; else the
   * chat and its links are removed.
   */
  method Delete(store: Store, chatId: Id, idText: Id -> string) returns (r: Outcome<bool>)
    requires store.Valid()
    modifies store
    ensures store.Valid()
    ensures chatId !in old(store.chats) ==> r == Returned(false) && store.Db() == old(store.Db())
    ensures chatId in old(store.chats) && !LinksStored(old(store.Db()), chatId) ==>
      r == Threw(NullReference) && store.Db() == old(store.Db())
    ensures chatId in old(store.chats) && LinksStored(old(store.Db()), chatId) ==>
      && r == Returned(true)
      && store.Db() == old(store.Db()).(chats := old(store.chats) - {chatId}, chatMembers := old(store.chatMembers) - {chatId})
  {
    var found := Get(store, chatId, idText);
    if found.Threw? {
      return Threw(found.fault);
    }
    if found.value.None? {
      return Returned(false);
    }
    store.chats := store.chats - {chatId};
    store.chatMembers := store.chatMembers - {chatId};
    r := Returned(true);
  }

  /**
   * Get after a successful Create: the same header, and every member found again, in
   * the order the chat listed them.
   */
  lemma {:induction false} GetAfterCreate(t: Tables, q: PersonalChatQueries, c: Option<ChatData>, freshId: Id)
    requires Consistent(t) && freshId != Empty && freshId !in t.chats
    requires ValidateChat(t, q, c, freshId).result == Returned(true)
    ensures var d := ValidateChat(t, q, c, freshId).chat.value; var t' := WithChat(t, d);
      && Consistent(t') && LinksStored(t', freshId)
      && View(t', freshId) == ChatView(d.Header(), d.members.value)
  {
    var d := ValidateChat(t, q, c, freshId).chat.value;
    var m := c.value.members.value;
    RewritesPersist(t, q, c, freshId);
    var t' := WithChat(t, d);
    var links := MemberIds(d.members.value);
    forall i | 0 <= i < |links|
      ensures links[i] in t'.users && t'.users[links[i]] == d.members.value[i]
    {
      assert d.members.value[i] == t.users[m[i].id];
    }
  }

  /** The text of one member id in a log line. */
  function Bracketed(idText: Id -> string, id: Id): string
  {
    "[" + idText(id) + "]"
  }

  /** The member ids bracketed and separated by ", ", with no separator after the last. */
  function Joined(idText: Id -> string, ids: seq<Id>): string
  {
    if |ids| <= 1 then (if ids == [] then "" else Bracketed(idText, ids[0]))
    else Bracketed(idText, ids[0]) + ", " + Joined(idText, ids[1..])
  }

  /** What the loop appends: every bracketed id followed by ", ". */
  function Appended(idText: Id -> string, ids: seq<Id>): string
  {
    if ids == [] then "" else Appended(idText, ids[..|ids| - 1]) + Bracketed(idText, ids[|ids| - 1]) + ", "
  }

  /** For at least one id, the appended text is the joined text plus one trailing ", ". */
  lemma {:induction false} AppendedIsJoinedPlusSeparator(idText: Id -> string, ids: seq<Id>)
    requires ids != []
    ensures Appended(idText, ids) == Joined(idText, ids) + ", "
    decreases |ids|
  {
    if |ids| > 1 {
      var init := ids[..|ids| - 1];
      AppendedIsJoinedPlusSeparator(idText, init);
      JoinedSnoc(idText, init, ids[|ids| - 1]);
      assert init + [ids[|ids| - 1]] == ids;
    }
  }

  /** Joining one more id adds ", " and its bracketed text. */
  lemma {:induction false} JoinedSnoc(idText: Id -> string, ids: seq<Id>, x: Id)
    requires ids != []
    ensures Joined(idText, ids + [x]) == Joined(idText, ids) + ", " + Bracketed(idText, x)
    decreases |ids|
  {
    if |ids| > 1 {
      JoinedSnoc(idText, ids[1..], x);
      assert (ids + [x])[1..] == ids[1..] + [x];
    }
  }

  /**
   * The member-id text of a log line, for a chat's Members (None for a null chat or
   * null Members): "Members = [null]" for None. Otherwise "Members = " and each
   * bracketed id followed by ", ", with the last two characters removed: the ids
   * joined by ", ", or "Members " for an empty list, which loses the "= " instead.
   * A null member is dereferenced for its id and throws.
   */
  method RepresentChatMembersAsStringOfIds(members: Option<seq<Option<UserRow>>>, idText: Id -> string)
    returns (r: Outcome<string>)
    ensures members.None? ==> r == Returned("Members = [null]")
    ensures members.Some? && !AllFound(members.value) ==> r == Threw(NullReference)
    ensures members.Some? && members.value == [] ==> r == Returned("Members ")
    ensures members.Some? && members.value != [] && AllFound(members.value) ==>
      r == Returned("Members = " + Joined(idText, MemberIds(Found(members.value))))
  {
    var chatData := "Members = ";
    if members.None? {
      chatData := chatData + "[null]";
      assert chatData == "Members = [null]";
      return Returned(chatData);
    }
    var ms := members.value;
    for i := 0 to |ms|
      invariant AllFound(ms[..i])
      invariant chatData == "Members = " + Appended(idText, MemberIds(Found(ms[..i])))
    {
      if ms[i].None? {
        return Threw(NullReference);
      }
      ghost var ids := MemberIds(Found(ms[..i + 1]));
      assert ids[..i] == MemberIds(Found(ms[..i]));
      assert ids[i] == ms[i].value.id;
      chatData := chatData + Bracketed(idText, ms[i].value.id) + ", ";
    }
    assert ms[..|ms|] == ms;
    var ids := MemberIds(Found(ms));
    assert chatData == "Members = " + Appended(idText, ids);
    if ids != [] {
      AppendedIsJoinedPlusSeparator(idText, ids);
      assert chatData == "Members = " + Joined(idText, ids) + ", ";
    }
    var text := chatData[..|chatData| - 2];
    if ids == [] {
      assert text == "Members ";
    }
    r := Returned(text);
  }
}
