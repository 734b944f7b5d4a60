/**
 * The older ChatRepositoryInputValidator: chats carry their avatar bytes inline, a
 * group gets a default name and avatar, a personal chat keeps its name and avatar, and
 * names are measured against the user-name bounds.
 */
module LegacyChatValidator {
  import opened Common
  import opened Constraints
  import opened Entities
  import ChatValidator

  /** An older Chat object's state as a value. */
  datatype LegacyChatData = LegacyChatData(
    id: Id,
    chatType: ChatType,
    adminId: Id,
    name: Option<string>,
    avatar: Option<seq<byte>>,
    members: Option<seq<UserRow>>)

  class LegacyChat {
    var id: Id
    var chatType: ChatType
    var adminId: Id
    var name: Option<string>
    var avatar: Option<seq<byte>>
    var members: Option<seq<UserRow>>

    function Data(): LegacyChatData
      reads this
    {
      LegacyChatData(id, chatType, adminId, name, avatar, members)
    }

    constructor (data: LegacyChatData)
      ensures Data() == data
    {
      id, chatType, adminId, name, avatar, members :=
        data.id, data.chatType, data.adminId, data.name, data.avatar, data.members;
    }
  }

  function LegacyChatInput(c: LegacyChat?): Option<LegacyChatData>
    reads c
  {
    if c == null then None else Some(c.Data())
  }

  /** The chat and its Members are present (an AdminId, being a Guid, is never null). */
  predicate CheckNull(c: Option<LegacyChatData>)
  {
    c.Some? && c.value.members.Some?
  }

  /** A null name passes; any other is held to the user-name bounds. */
  predicate CheckRange(name: Option<string>)
  {
    name.None? || InRange(Utf16Length(name.value), MinUserNameLength, MaxUserNameLength)
  }

  /**
   * The chat after AddChatInfo: fresh id, Group iff more than two members; a group's
   * missing name and avatar get the defaults; a personal chat loses only its admin.
   */
  function WithInfo(d: LegacyChatData, freshId: Id): (r: LegacyChatData)
    requires d.members.Some?
    ensures r.id == freshId && r.members == d.members
    ensures r.chatType == Group <==> |d.members.value| > 2
    ensures r.chatType == Group ==>
      && r.adminId == d.adminId
      && r.name == (if d.name.None? then Some(DefaultChatName) else d.name)
      && r.avatar == (if d.avatar.None? then Some([]) else d.avatar)
    ensures r.chatType == Personal ==> r.adminId == Empty && r.name == d.name && r.avatar == d.avatar
  {
    var typed := d.(id := freshId, chatType := if |d.members.value| > 2 then Group else Personal);
    var named := if typed.chatType == Group && typed.name.None? then typed.(name := Some(DefaultChatName)) else typed;
    var withAvatar := if named.chatType == Group && named.avatar.None? then named.(avatar := Some([])) else named;
    if withAvatar.chatType == Personal then withAvatar.(adminId := Empty) else withAvatar
  }

  /** ValidateCreateAndAddInfo on a chat given as a value: the verdict and the chat it leaves. */
  function ValidateCreate(c: Option<LegacyChatData>, freshId: Id): (bool, Option<LegacyChatData>)
  {
    if !CheckNull(c) then (false, c)
    else
      var d := WithInfo(c.value, freshId);
      if d.chatType == Group then (ChatValidator.IsMember(d.members.value, d.adminId) && CheckRange(d.name), Some(d))
      else (CheckRange(d.name), Some(d))
  }

  /**
   * A group is valid iff its admin is a member and its name, after the default, is in
   * range; a personal chat iff its own name is null or in range.
   */
  lemma VerdictByType(c: LegacyChatData, freshId: Id)
    requires c.members.Some?
    ensures |c.members.value| > 2 ==>
      (ValidateCreate(Some(c), freshId).0 <==> ChatValidator.IsMember(c.members.value, c.adminId) && CheckRange(c.name))
    ensures |c.members.value| <= 2 ==> (ValidateCreate(Some(c), freshId).0 <==> CheckRange(c.name))
  {
  }

  /** A group without a name is named "New Chat", which is within the bounds. */
  lemma {:induction false} UnnamedGroupPassesRange(c: LegacyChatData, freshId: Id)
    requires c.members.Some? && |c.members.value| > 2 && c.name.None?
    ensures ValidateCreate(Some(c), freshId).1.value.name == Some("New Chat")
    ensures ValidateCreate(Some(c), freshId).0 <==> ChatValidator.IsMember(c.members.value, c.adminId)
  {
    assert |DefaultChatName| == 8;
  }

  /**
   * A name of 26 to 50 characters passes the newer chat-name check but fails this
   * one, which uses the user-name bounds.
   */
  lemma {:induction false} NameBoundsAreUserNameBounds(name: string)
    requires 25 < Utf16Length(name) <= 50
    ensures !CheckRange(Some(name))
    ensures ChatValidator.CheckRange(Some(name))
  {
  }

  /** Sets the fresh id and type, the group defaults, and clears a personal chat's admin. */
  method AddChatInfo(chat: LegacyChat, freshId: Id)
    requires chat.members.Some?
    modifies chat
    ensures chat.Data() == WithInfo(old(chat.Data()), freshId)
  {
    chat.id := freshId;
    if |chat.members.value| > 2 {
      chat.chatType := Group;
    } else {
      chat.chatType := Personal;
    }
    if chat.chatType == Group && chat.name.None? {
      chat.name := Some(DefaultChatName);
    }
    if chat.chatType == Group && chat.avatar.None? {
      chat.avatar := Some([]);
    }
    if chat.chatType == Personal {
      chat.adminId := Empty;
    }
  }

  /** The verdict and the object's new state are those of ValidateCreate on its old state. */
  method ValidateCreateAndAddInfo(chat: LegacyChat?, freshId: Id) returns (valid: bool)
    modifies chat
    ensures (valid, LegacyChatInput(chat)) == ValidateCreate(old(LegacyChatInput(chat)), freshId)
  {
    if chat == null || chat.members.None? {
      return false;
    }
    AddChatInfo(chat, freshId);
    if chat.chatType == Group {
      var isMember := ChatValidator.AdminIsChatMember(chat.members.value, chat.adminId);
      valid := isMember && CheckRange(chat.name);
    } else {
      valid := CheckRange(chat.name);
    }
  }
}
