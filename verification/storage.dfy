/**
 * The relational store behind the four repositories: one map per table, keyed by
 * id, plus the ChatMembers links kept per chat in insertion order.
 */
module Storage {
  import opened Common
  import opened Entities

  /** A snapshot of every table. */
  datatype Tables = Tables(
    users: map<Id, UserRow>,
    attachments: map<Id, AttachmentRow>,
    chats: map<Id, ChatHeader>,
    chatMembers: map<Id, seq<Id>>,
    messages: map<Id, MessageRow>)

  /**
   * The two duplicate-personal-chat queries. Their SQL text lives in a resource
   * file that is not part of this model, so they are parameters of the store.
   */
  datatype PersonalChatQueries = PersonalChatQueries(
    onePersonChatExists: (Tables, Id) -> bool,
    twoPersonsChatExists: (Tables, Id, Id) -> bool)

  /** Every row sits under its own id, no row uses Guid.Empty, and every chat has its links. */
  predicate Consistent(t: Tables)
  {
    && (forall k :: k in t.users ==> t.users[k].id == k && k != Empty)
    && (forall k :: k in t.attachments ==> t.attachments[k].id == k && k != Empty)
    && (forall k :: k in t.chats ==> t.chats[k].id == k && k != Empty)
    && (forall k :: k in t.messages ==> t.messages[k].id == k && k != Empty)
    && t.chatMembers.Keys == t.chats.Keys
  }

  /**
   * Every user a chat's links name is still stored. Deleting a user leaves its links
   * in place, so a stored chat can name a user who is gone.
   */
  predicate LinksStored(t: Tables, chatId: Id)
  {
    chatId in t.chatMembers ==> forall u :: u in t.chatMembers[chatId] ==> u in t.users
  }

  class Store {
    var users: map<Id, UserRow>
    var attachments: map<Id, AttachmentRow>
    var chats: map<Id, ChatHeader>
    var chatMembers: map<Id, seq<Id>>
    var messages: map<Id, MessageRow>
    const queries: PersonalChatQueries

    function Db(): Tables
      reads this
    {
      Tables(users, attachments, chats, chatMembers, messages)
    }

    predicate Valid()
      reads this
    {
      Consistent(Db())
    }

    /** An empty database. */
    constructor (queries: PersonalChatQueries)
      ensures Valid()
      ensures Db() == Tables(map[], map[], map[], map[], map[])
      ensures this.queries == queries
    {
      users, attachments, chats, chatMembers, messages := map[], map[], map[], map[], map[];
      this.queries := queries;
    }
  }
}
