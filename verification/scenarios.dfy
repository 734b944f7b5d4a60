/**
 * Create, Get and Delete run one after another on the same store, as the repository
 * tests run them: what Get returns after Create, and that Get finds nothing after Delete.
 */
module Scenarios {
  import opened Common
  import opened Entities
  import opened Storage
  import AttachmentValidator
  import AttachmentRepository
  import UserValidator
  import UserRepository
  import MessageValidator
  import MessageRepository
  import ChatValidator
  import ChatRepository

  method AttachmentLifecycle(store: Store, attachment: Attachment, freshId: Id)
    returns (created: Attachment?, found: Option<AttachmentRow>, deleted: bool, gone: Option<AttachmentRow>)
    requires store.Valid() && freshId != Empty && freshId !in store.attachments
    requires AttachmentValidator.ValidateAttachmentInput(Some(attachment.Row()))
    modifies store, attachment
    ensures created == attachment
    ensures found == Some(old(attachment.Row()).(id := freshId))
    ensures deleted && gone == None
  {
    created := AttachmentRepository.Create(store, attachment, freshId);
    found := AttachmentRepository.Get(store, freshId);
    deleted := AttachmentRepository.Delete(store, freshId);
    gone := AttachmentRepository.Get(store, freshId);
  }

  method UserLifecycle(store: Store, user: User, freshId: Id)
    returns (created: Outcome<User?>, found: Option<UserRow>, deleted: bool, gone: Option<UserRow>)
    requires store.Valid() && freshId != Empty && freshId !in store.users
    requires UserValidator.ValidateUserInput(store.Db(), Some(user.Row())) == Returned(true)
    modifies store, user
    ensures created == Returned(user)
    ensures found == Some(old(user.Row()).(id := freshId))
    ensures deleted && gone == None
  {
    created := UserRepository.Create(store, user, freshId);
    found := UserRepository.Get(store, freshId);
    deleted := UserRepository.Delete(store, freshId);
    gone := UserRepository.Get(store, freshId);
  }

  /**
   * Get after Send returns the message under the fresh Id with the Date as the column
   * stored it (rounded), while the sent object keeps the exact time; Delete removes it.
   */
  method MessageLifecycle(store: Store, message: Message, freshId: Id, now: int, dateColumn: int -> int)
    returns (sent: Outcome<Message?>, found: Option<MessageRow>, deleted: bool, gone: Option<MessageRow>)
    requires store.Valid() && freshId != Empty && freshId !in store.messages
    requires MessageValidator.ValidateMessageInput(store.Db(), Some(message.Row())) == Returned(true)
    modifies store, message
    ensures sent == Returned(message)
    ensures message.date == now
    ensures found == Some(old(message.Row()).(id := freshId, date := dateColumn(now)))
    ensures deleted && gone == None
  {
    sent := MessageRepository.Send(store, message, freshId, now, dateColumn);
    found := MessageRepository.Get(store, freshId);
    deleted := MessageRepository.Delete(store, freshId);
    gone := MessageRepository.Get(store, freshId);
  }

  /**
   * Get after Create shows the created header and every member found again, in order;
   * after Delete, Get finds nothing and no user's chat list shows the chat.
   */
  method ChatLifecycle(store: Store, chat: Chat, freshId: Id, userId: Id, idText: Id -> string)
    returns (created: Outcome<Chat?>, found: Outcome<Option<ChatView>>, deleted: Outcome<bool>,
      gone: Outcome<Option<ChatView>>, listed: Outcome<seq<ChatView>>)
    requires store.Valid() && freshId != Empty && freshId !in store.chats
    requires ChatValidator.ValidateChat(store.Db(), store.queries, Some(chat.Data()), freshId).result == Returned(true)
    modifies store, chat
    ensures created == Returned(chat) && chat.members.Some?
    ensures found == Returned(Some(ChatView(chat.Data().Header(), chat.members.value)))
    ensures deleted == Returned(true) && gone == Returned(None)
    ensures listed.Returned? ==> freshId !in ChatRepository.ViewIds(listed.value)
  {
    ChatRepository.GetAfterCreate(store.Db(), store.queries, Some(chat.Data()), freshId);
    created := ChatRepository.Create(store, chat, freshId);
    found := ChatRepository.Get(store, freshId, idText);
    deleted := ChatRepository.Delete(store, freshId, idText);
    gone := ChatRepository.Get(store, freshId, idText);
    listed := ChatRepository.GetUserChats(store, userId, idText);
  }

  /**
   * A member of a stored chat is deleted: its link stays, so Get on the chat, Delete
   * of the chat and sending a message to it all throw, and the chat stays stored.
   */
  method DeletedMemberBreaksChat(store: Store, chatId: Id, member: Id, message: Message, freshId: Id, now: int,
    dateColumn: int -> int, idText: Id -> string)
    returns (removed: bool, found: Outcome<Option<ChatView>>, deleted: Outcome<bool>, sent: Outcome<Message?>)
    requires store.Valid() && chatId in store.chats && member in store.chatMembers[chatId] && member in store.users
    requires freshId != Empty && freshId !in store.messages
    requires MessageValidator.CheckNull(Some(message.Row())) && message.chatId == chatId
    modifies store, message
    ensures removed && found == Threw(NullReference) && deleted == Threw(NullReference)
    ensures sent == Threw(NullReference) && chatId in store.chats && freshId !in store.messages
  {
    removed := UserRepository.Delete(store, member);
    assert !LinksStored(store.Db(), chatId);
    found := ChatRepository.Get(store, chatId, idText);
    deleted := ChatRepository.Delete(store, chatId, idText);
    sent := MessageRepository.Send(store, message, freshId, now, dateColumn);
  }
}
