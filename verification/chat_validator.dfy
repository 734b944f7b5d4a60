/**
 * ChatRepositoryInputValidator: the checks a new chat passes, and the rewrites it
 * undergoes on the way (resolved members, fresh id, type by member count, cleared
 * fields of a personal chat), which stay on the object whatever the verdict.
 */
module ChatValidator {
  import opened Common
  import opened Constraints
  import opened Entities
  import opened Storage

  /** The chat and its Members list are present. */
  predicate CheckNull(c: Option<ChatData>)
  {
    c.Some? && c.value.members.Some?
  }

  /** The stored users under the members' ids, in order; None once an id is not stored. */
  function ResolvedMembers(users: map<Id, UserRow>, members: seq<UserRow>): (r: Option<seq<UserRow>>)
    ensures r.Some? <==> forall i :: 0 <= i < |members| ==> members[i].id in users
    ensures r.Some? ==> |r.value| == |members|
    ensures r.Some? ==> forall i :: 0 <= i < |members| ==> r.value[i] == users[members[i].id]
    decreases |members|
  {
    if members == [] then Some([])
    else if members[0].id !in users then None
    else match ResolvedMembers(users, members[1..])
      case None => None
      case Some(rest) => Some([users[members[0].id]] + rest)
  }

  /** Some member carries the given id. */
  predicate IsMember(members: seq<UserRow>, id: Id)
  {
    exists i :: 0 <= i < |members| && members[i].id == id
  }

  /** A group name is present and its length within the chat-name bounds. */
  predicate CheckRange(name: Option<string>)
  {
    name.Some? && InRange(Utf16Length(name.value), MinChatNameLength, MaxChatNameLength)
  }

  /** An Empty avatar id passes; any other must name a stored attachment. */
  predicate CheckAvatarExistens(attachments: map<Id, AttachmentRow>, avatarId: Id)
  {
    avatarId == Empty || avatarId in attachments
  }

  /** A personal chat in t whose membership links are exactly ids, in this order. */
  predicate HasPersonalChat(t: Tables, ids: seq<Id>)
  {
    exists c :: c in t.chats && c in t.chatMembers && t.chats[c].chatType == Personal && t.chatMembers[c] == ids
  }

  /** HasPersonalChat(t, ids), and every personal chat of t has exactly those links. */
  predicate OnlyPersonalChat(t: Tables, ids: seq<Id>)
  {
    && HasPersonalChat(t, ids)
    && forall c :: c in t.chats && c in t.chatMembers && t.chats[c].chatType == Personal ==> t.chatMembers[c] == ids
  }

  /**
   * What the unit tests of the two duplicate lookups establish: the one-person lookup
   * finds a chat of that user and not one of another user; the two-person lookup finds
   * (u1, u2) once it was created and not (u2, u3) when only (u1, u2) exists.
   */
  ghost predicate AgreesWithTests(q: PersonalChatQueries)
  {
    && (forall t, u :: HasPersonalChat(t, [u]) ==> q.onePersonChatExists(t, u))
    && (forall t, u, v :: OnlyPersonalChat(t, [u]) && v != u ==> !q.onePersonChatExists(t, v))
    && (forall t, u1, u2 :: HasPersonalChat(t, [u1, u2]) ==> q.twoPersonsChatExists(t, u1, u2))
    && (forall t, u1, u2, u3 :: OnlyPersonalChat(t, [u1, u2]) && u1 != u2 && u3 != u1 && u3 != u2 ==>
          !q.twoPersonsChatExists(t, u2, u3))
  }

  /** A reference reading of the lookups: a personal chat with the same members exists. */
  function SameMembersQueries(): PersonalChatQueries
  {
    PersonalChatQueries(
      (t: Tables, u: Id) => HasPersonalChat(t, [u]),
      (t: Tables, u1: Id, u2: Id) => HasPersonalChat(t, [u1, u2]) || HasPersonalChat(t, [u2, u1]))
  }

  lemma SameMembersQueriesAgreeWithTests()
    ensures AgreesWithTests(SameMembersQueries())
  {
  }

  /** Personal with at most two members, group beyond. */
  function TypeFor(memberCount: nat): ChatType
  {
    if memberCount > 2 then Group else Personal
  }

  /**
   * The chat object after AddChatData and, for a personal chat, CleanExcessiveData:
   * resolved members, fresh id, the type by member count; a personal chat loses its
   * admin, name and avatar.
   */
  function Rewritten(d: ChatData, resolved: seq<UserRow>, freshId: Id): ChatData
  {
    var typed := d.(members := Some(resolved), id := freshId, chatType := TypeFor(|resolved|));
    if typed.chatType == Personal then typed.(adminId := Empty, name := None, avatarId := Empty) else typed
  }

  /** The verdict on a rewritten chat: the duplicate lookup for a personal chat, three checks for a group. */
  function Decide(t: Tables, q: PersonalChatQueries, d: ChatData): Outcome<bool>
    requires d.members.Some?
  {
    var m := d.members.value;
    if d.chatType == Personal then
      if |m| == 1 then Returned(!q.onePersonChatExists(t, m[0].id))
      else if |m| == 0 then Threw(ArgumentOutOfRange)
      else Returned(!q.twoPersonsChatExists(t, m[0].id, m[1].id))
    else
      Returned(IsMember(m, d.adminId) && CheckRange(d.name) && CheckAvatarExistens(t.attachments, d.avatarId))
  }

  /** The validator's verdict together with the state it leaves the chat object in. */
  datatype Verdict = Verdict(result: Outcome<bool>, chat: Option<ChatData>)

  /** ValidateChatInputAndAddData on a chat given as a value; None stands for null. */
  function ValidateChat(t: Tables, q: PersonalChatQueries, c: Option<ChatData>, freshId: Id): (v: Verdict)
    ensures v.result == Returned(true) ==> v.chat.Some? && v.chat.value.members.Some? && v.chat.value.id == freshId
  {
    if !CheckNull(c) then Verdict(Returned(false), c)
    else match ResolvedMembers(t.users, c.value.members.value)
      case None => Verdict(Returned(false), c)
      case Some(resolved) =>
        var d := Rewritten(c.value, resolved, freshId);
        Verdict(Decide(t, q, d), Some(d))
  }

  /** Stored users sit under their own ids, so resolving keeps every member's id. */
  lemma {:induction false} ResolvedKeepsIds(t: Tables, members: seq<UserRow>)
    requires Consistent(t)
    requires ResolvedMembers(t.users, members).Some?
    ensures MemberIds(ResolvedMembers(t.users, members).value) == MemberIds(members)
  {
    var r := ResolvedMembers(t.users, members).value;
    forall i | 0 <= i < |members|
      ensures MemberIds(r)[i] == MemberIds(members)[i]
    {
      assert r[i] == t.users[members[i].id];
    }
  }

  /** A null chat, a null Members list or an unknown member: rejected, the object untouched. */
  lemma RejectedUntouched(t: Tables, q: PersonalChatQueries, c: Option<ChatData>, freshId: Id)
    requires !CheckNull(c) || exists i :: 0 <= i < |c.value.members.value| && c.value.members.value[i].id !in t.users
    ensures ValidateChat(t, q, c, freshId) == Verdict(Returned(false), c)
  {
  }

  /**
   * Once the members resolve, the object is rewritten whatever the verdict: resolved
   * members in order, the fresh id, Group iff more than two members; a personal chat
   * loses admin, name and avatar, a group keeps them.
   */
  lemma {:induction false} RewritesPersist(t: Tables, q: PersonalChatQueries, c: Option<ChatData>, freshId: Id)
    requires Consistent(t)
    requires CheckNull(c) && forall i :: 0 <= i < |c.value.members.value| ==> c.value.members.value[i].id in t.users
    ensures var v := ValidateChat(t, q, c, freshId); var old_ := c.value; var old_m := old_.members.value;
      && v.chat.Some? && v.chat.value.members.Some?
      && var d := v.chat.value; var m := d.members.value;
      && d.id == freshId
      && |m| == |old_m|
      && (forall i :: 0 <= i < |m| ==> m[i] == t.users[old_m[i].id] && m[i].id == old_m[i].id)
      && (d.chatType == Group <==> |old_m| > 2)
      && (d.chatType == Personal ==> d.adminId == Empty && d.name == None && d.avatarId == Empty)
      && (d.chatType == Group ==> d.adminId == old_.adminId && d.name == old_.name && d.avatarId == old_.avatarId)
  {
    var r := ResolvedMembers(t.users, c.value.members.value).value;
    ResolvedKeepsIds(t, c.value.members.value);
    forall i | 0 <= i < |r|
      ensures r[i].id == c.value.members.value[i].id
    {
      assert MemberIds(r)[i] == MemberIds(c.value.members.value)[i];
    }
  }

  /**
   * A personal chat (one or two members) is valid iff the duplicate lookup on its
   * members' ids finds nothing; with no members the two-person lookup indexes an
   * empty list and throws.
   */
  lemma PersonalVerdict(t: Tables, q: PersonalChatQueries, c: Option<ChatData>, freshId: Id)
    requires Consistent(t)
    requires CheckNull(c) && forall i :: 0 <= i < |c.value.members.value| ==> c.value.members.value[i].id in t.users
    requires |c.value.members.value| <= 2
    ensures var m := c.value.members.value; var v := ValidateChat(t, q, c, freshId).result;
      && (|m| == 0 ==> v == Threw(ArgumentOutOfRange))
      && (|m| == 1 ==> v == Returned(!q.onePersonChatExists(t, m[0].id)))
      && (|m| == 2 ==> v == Returned(!q.twoPersonsChatExists(t, m[0].id, m[1].id)))
  {
    RewritesPersist(t, q, c, freshId);
  }

  /**
   * A group chat (three or more members) is valid iff the admin is a member, the name
   * is in range and the avatar is Empty or stored.
   */
  lemma GroupVerdict(t: Tables, q: PersonalChatQueries, c: Option<ChatData>, freshId: Id)
    requires Consistent(t)
    requires CheckNull(c) && forall i :: 0 <= i < |c.value.members.value| ==> c.value.members.value[i].id in t.users
    requires |c.value.members.value| > 2
    ensures var d := c.value; var v := ValidateChat(t, q, c, freshId).result;
      v == Returned(IsMember(d.members.value, d.adminId) && CheckRange(d.name) && CheckAvatarExistens(t.attachments, d.avatarId))
  {
    RewritesPersist(t, q, c, freshId);
    var d := c.value;
    var m := ValidateChat(t, q, c, freshId).chat.value.members.value;
    if IsMember(d.members.value, d.adminId) {
      var i :| 0 <= i < |d.members.value| && d.members.value[i].id == d.adminId;
      assert m[i].id == d.adminId;
    }
    if IsMember(m, d.adminId) {
      var i :| 0 <= i < |m| && m[i].id == d.adminId;
      assert d.members.value[i].id == d.adminId;
    }
  }

  /**
   * With lookups that agree with the tests, a personal chat whose members already
   * have a personal chat with the same links in t is rejected.
   */
  lemma DuplicatePersonalRejected(t: Tables, q: PersonalChatQueries, c: Option<ChatData>, freshId: Id)
    requires AgreesWithTests(q) && Consistent(t)
    requires CheckNull(c) && forall i :: 0 <= i < |c.value.members.value| ==> c.value.members.value[i].id in t.users
    requires 1 <= |c.value.members.value| <= 2
    requires HasPersonalChat(t, MemberIds(c.value.members.value))
    ensures ValidateChat(t, q, c, freshId).result == Returned(false)
  {
    var m := c.value.members.value;
    PersonalVerdict(t, q, c, freshId);
    if |m| == 1 {
      assert MemberIds(m) == [m[0].id];
    } else {
      assert MemberIds(m) == [m[0].id, m[1].id];
    }
  }

  /**
   * With lookups that agree with the tests, when t's only personal chat links u1 and
   * u2, a new chat of u2 and a third user u3 is accepted.
   */
  lemma {:induction false} OtherPairAccepted(t: Tables, q: PersonalChatQueries, c: Option<ChatData>, freshId: Id, u1: Id)
    requires AgreesWithTests(q) && Consistent(t)
    requires CheckNull(c) && forall i :: 0 <= i < |c.value.members.value| ==> c.value.members.value[i].id in t.users
    requires |c.value.members.value| == 2
    requires var m := c.value.members.value;
      OnlyPersonalChat(t, [u1, m[0].id]) && u1 != m[0].id && m[1].id != u1 && m[1].id != m[0].id
    ensures ValidateChat(t, q, c, freshId).result == Returned(true)
  {
    PersonalVerdict(t, q, c, freshId);
  }

  /** Resolves every member through the user table (GetById), then rejects if one came back null. */
  method ResolveMembers(store: Store, members: seq<UserRow>) returns (r: Option<seq<UserRow>>)
    ensures r == ResolvedMembers(store.users, members)
  {
    var found: seq<Option<UserRow>> := [];
    for i := 0 to |members|
      invariant |found| == i
      invariant forall j :: 0 <= j < i ==>
        found[j] == (if members[j].id in store.users then Some(store.users[members[j].id]) else None)
    {
      var user := if members[i].id in store.users then Some(store.users[members[i].id]) else None;
      found := found + [user];
    }
    var resolved: seq<UserRow> := [];
    for i := 0 to |found|
      invariant |resolved| == i
      invariant forall j :: 0 <= j < i ==> found[j].Some? && resolved[j] == found[j].value
    {
      if found[i].None? {
        assert members[i].id !in store.users;
        return None;
      }
      resolved := resolved + [found[i].value];
    }
    assert resolved == ResolvedMembers(store.users, members).value;
    r := Some(resolved);
  }

  /** Scans the members for the admin's id, stopping at the first match. */
  method AdminIsChatMember(members: seq<UserRow>, adminId: Id) returns (adminIsChatMember: bool)
    ensures adminIsChatMember <==> IsMember(members, adminId)
  {
    adminIsChatMember := false;
    var i := 0;
    while i < |members|
      invariant 0 <= i <= |members|
      invariant forall j :: 0 <= j < i ==> members[j].id != adminId
    {
      if members[i].id == adminId {
        adminIsChatMember := true;
        break;
      }
      i := i + 1;
    }
  }

  /** On success Members is replaced by the resolved users; otherwise the chat is untouched. */
  method CheckMembersExistensAndAddThemToChat(store: Store, chat: Chat) returns (ok: bool)
    requires chat.members.Some?
    modifies chat
    ensures var resolved := ResolvedMembers(store.users, old(chat.members.value));
      && (ok <==> resolved.Some?)
      && chat.Data() == (if ok then old(chat.Data()).(members := resolved) else old(chat.Data()))
  {
    var resolved := ResolveMembers(store, chat.members.value);
    if resolved.None? {
      return false;
    }
    chat.members := resolved;
    ok := true;
  }

  /** Sets the fresh id, and the type by member count. */
  method AddChatData(chat: Chat, freshId: Id)
    requires chat.members.Some?
    modifies chat
    ensures chat.Data() == old(chat.Data()).(id := freshId, chatType := TypeFor(|old(chat.members.value)|))
  {
    chat.id := freshId;
    if |chat.members.value| > 2 {
      chat.chatType := Group;
    } else {
      chat.chatType := Personal;
    }
  }

  /** A personal chat has no admin, name or avatar. */
  method CleanExcessiveData(chat: Chat)
    modifies chat
    ensures chat.Data() == old(chat.Data()).(adminId := Empty, name := None, avatarId := Empty)
  {
    chat.adminId := Empty;
    chat.name := None;
    chat.avatarId := Empty;
  }

  /** One member: the one-person lookup; otherwise the two-person lookup on Members[0] and Members[1]. */
  method SamePersonalChatExists(store: Store, members: seq<UserRow>) returns (r: Outcome<bool>)
    ensures |members| == 1 ==> r == Returned(store.queries.onePersonChatExists(store.Db(), members[0].id))
    ensures |members| == 0 ==> r == Threw(ArgumentOutOfRange)
    ensures |members| >= 2 ==> r == Returned(store.queries.twoPersonsChatExists(store.Db(), members[0].id, members[1].id))
  {
    if |members| == 1 {
      r := Returned(store.queries.onePersonChatExists(store.Db(), members[0].id));
    } else if |members| == 0 {
      r := Threw(ArgumentOutOfRange);
    } else {
      r := Returned(store.queries.twoPersonsChatExists(store.Db(), members[0].id, members[1].id));
    }
  }

  /**
   * Validates the chat and rewrites it in place. The verdict and the object's new
   * state are those of ValidateChat on the object's old state.
   */
  method ValidateChatInputAndAddData(store: Store, chat: Chat?, freshId: Id) returns (r: Outcome<bool>)
    modifies chat
    ensures Verdict(r, ChatInput(chat)) == ValidateChat(store.Db(), store.queries, old(ChatInput(chat)), freshId)
  {
    if chat == null || chat.members.None? {
      return Returned(false);
    }
    var ok := CheckMembersExistensAndAddThemToChat(store, chat);
    if !ok {
      return Returned(false);
    }
    AddChatData(chat, freshId);
    if chat.chatType == Personal {
      CleanExcessiveData(chat);
      var duplicate := SamePersonalChatExists(store, chat.members.value);
      r := match duplicate
        case Threw(f) => Threw(f)
        case Returned(found) => Returned(!found);
    } else {
      var isMember := AdminIsChatMember(chat.members.value, chat.adminId);
      r := Returned(isMember && CheckRange(chat.name) && CheckAvatarExistens(store.attachments, chat.avatarId));
    }
  }
}
