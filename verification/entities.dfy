/**
 * The four entities. A `...Row` datatype is an entity as a value: what a validator
 * looks at and what a table stores. The classes are the mutable objects callers hand
 * to the repositories, which rewrite some of their fields in place.
 */
module Entities {
  import opened Common

  datatype ChatType = Personal | Group

  datatype UserRow = UserRow(
    id: Id,
    name: Option<string>,
    lastName: Option<string>,
    email: Option<string>,
    password: Option<string>,
    avatarId: Id)

  datatype AttachmentRow = AttachmentRow(
    id: Id,
    fileType: Option<string>,
    file: Option<seq<byte>>)

  datatype MessageRow = MessageRow(
    id: Id,
    chatId: Id,
    authorId: Id,
    date: int,               // DateTime, as ticks
    text: Option<string>,
    attachmentId: Id,
    selfDeletion: bool)

  /** A row of the Chat table: the chat without its members. */
  datatype ChatHeader = ChatHeader(
    id: Id,
    chatType: ChatType,
    adminId: Id,
    name: Option<string>,
    avatarId: Id)

  /** A Chat object's state as a value. */
  datatype ChatData = ChatData(
    id: Id,
    chatType: ChatType,
    adminId: Id,
    name: Option<string>,
    avatarId: Id,
    members: Option<seq<UserRow>>)
  {
    function Header(): ChatHeader
    {
      ChatHeader(id, chatType, adminId, name, avatarId)
    }
  }

  /** A chat as ChatRepository.Get returns it: its header and each linked user looked up again. */
  datatype ChatView = ChatView(header: ChatHeader, members: seq<UserRow>)

  /** The ids of a member list, in order. */
  function MemberIds(members: seq<UserRow>): (ids: seq<Id>)
    ensures |ids| == |members|
    ensures forall i :: 0 <= i < |members| ==> ids[i] == members[i].id
  {
    seq(|members|, i requires 0 <= i < |members| => members[i].id)
  }

  class User {
    var id: Id
    var name: Option<string>
    var lastName: Option<string>
    var email: Option<string>
    var password: Option<string>
    var avatarId: Id

    function Row(): UserRow
      reads this
    {
      UserRow(id, name, lastName, email, password, avatarId)
    }

    constructor (row: UserRow)
      ensures Row() == row
    {
      id, name, lastName, email, password, avatarId :=
        row.id, row.name, row.lastName, row.email, row.password, row.avatarId;
    }
  }

  class Attachment {
    var id: Id
    var fileType: Option<string>
    var file: Option<seq<byte>>

    function Row(): AttachmentRow
      reads this
    {
      AttachmentRow(id, fileType, file)
    }

    constructor (row: AttachmentRow)
      ensures Row() == row
    {
      id, fileType, file := row.id, row.fileType, row.file;
    }
  }

  class Message {
    var id: Id
    var chatId: Id
    var authorId: Id
    var date: int
    var text: Option<string>
    var attachmentId: Id
    var selfDeletion: bool

    function Row(): MessageRow
      reads this
    {
      MessageRow(id, chatId, authorId, date, text, attachmentId, selfDeletion)
    }

    constructor (row: MessageRow)
      ensures Row() == row
    {
      id, chatId, authorId, date, text, attachmentId, selfDeletion :=
        row.id, row.chatId, row.authorId, row.date, row.text, row.attachmentId, row.selfDeletion;
    }
  }

  class Chat {
    var id: Id
    var chatType: ChatType
    var adminId: Id
    var name: Option<string>
    var avatarId: Id
    var members: Option<seq<UserRow>>

    function Data(): ChatData
      reads this
    {
      ChatData(id, chatType, adminId, name, avatarId, members)
    }

    constructor (data: ChatData)
      ensures Data() == data
    {
      id, chatType, adminId, name, avatarId, members :=
        data.id, data.chatType, data.adminId, data.name, data.avatarId, data.members;
    }
  }

  /** A possibly-null argument as a value: None stands for null. */
  function UserInput(u: User?): Option<UserRow>
    reads u
  {
    if u == null then None else Some(u.Row())
  }

  function AttachmentInput(a: Attachment?): Option<AttachmentRow>
    reads a
  {
    if a == null then None else Some(a.Row())
  }

  function MessageInput(m: Message?): Option<MessageRow>
    reads m
  {
    if m == null then None else Some(m.Row())
  }

  function ChatInput(c: Chat?): Option<ChatData>
    reads c
  {
    if c == null then None else Some(c.Data())
  }
}
