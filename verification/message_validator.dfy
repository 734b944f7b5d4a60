/**
 * MessageRepositoryInputValidator: the short-circuit conjunction of four read-only
 * checks. The message is never written.
 */
module MessageValidator {
  import opened Common
  import opened Entities
  import opened Constraints
  import opened Storage

  /** Non-null, chat and author ids set, and text or an attachment present. */
  predicate CheckNull(m: Option<MessageRow>)
  {
    && m.Some?
    && m.value.chatId != Empty
    && m.value.authorId != Empty
    && (m.value.text.Some? || m.value.attachmentId != Empty)
  }

  /**
   * The chat is fetched with ChatRepository.Get, which throws for a stored chat that
   * links a user who is gone; only a SqlException would be caught here.
   */
  function CheckChatExistens(t: Tables, m: MessageRow): (r: Outcome<bool>)
    ensures r.Threw? <==> m.chatId in t.chats && !LinksStored(t, m.chatId)
    ensures r.Threw? ==> r.fault == NullReference
    ensures r.Returned? ==> (r.value <==> m.chatId in t.chats)
  {
    if m.chatId !in t.chats then Returned(false)
    else if !LinksStored(t, m.chatId) then Threw(NullReference)
    else Returned(true)
  }

  predicate CheckAuthorExistens(t: Tables, m: MessageRow)
  {
    m.authorId in t.users
  }

  predicate CheckAttachmentExistens(t: Tables, m: MessageRow)
  {
    m.attachmentId in t.attachments
  }

  predicate CheckTextRange(text: string)
  {
    InRange(Utf16Length(text), MinMessageTextLength, MaxMessageTextLength)
  }

  /** The attachment is looked up only when set; the length is checked only for non-empty text. */
  predicate CheckAttachmentAndText(t: Tables, m: MessageRow)
  {
    var attachmentFound := m.attachmentId != Empty ==> CheckAttachmentExistens(t, m);
    var textFound := (m.text.Some? && m.text.value != "") ==> CheckTextRange(m.text.value);
    attachmentFound && textFound
  }

  /** The checks in order, each run only when the ones before it passed; a throw propagates. */
  function ValidateMessageInput(t: Tables, m: Option<MessageRow>): Outcome<bool>
  {
    if !CheckNull(m) then Returned(false)
    else match CheckChatExistens(t, m.value)
      case Threw(fault) => Threw(fault)
      case Returned(found) =>
        Returned(found && CheckAuthorExistens(t, m.value) && CheckAttachmentAndText(t, m.value))
  }

  /**
   * A message that passes the null checks and names a stored chat which links a user
   * who is gone makes validation throw, whatever its author, text and attachment.
   */
  lemma DanglingLinkThrows(t: Tables, m: MessageRow)
    requires CheckNull(Some(m))
    requires m.chatId in t.chats && !LinksStored(t, m.chatId)
    ensures ValidateMessageInput(t, Some(m)) == Threw(NullReference)
  {
  }

  /** What an accepted message guarantees about the tables at the time of sending. */
  lemma AcceptedMessageIsSound(t: Tables, m: MessageRow)
    requires ValidateMessageInput(t, Some(m)) == Returned(true)
    ensures m.chatId != Empty && m.chatId in t.chats && LinksStored(t, m.chatId)
    ensures m.authorId != Empty && m.authorId in t.users
    ensures m.text.Some? || m.attachmentId != Empty
    ensures m.attachmentId == Empty || m.attachmentId in t.attachments
    ensures m.text.Some? ==> Utf16Length(m.text.value) <= MaxMessageTextLength
  {
  }

  /**
   * A message that sets its chat, author, text and attachment correctly is accepted,
   * unless its chat links a user who is gone, and then validation throws.
   */
  lemma AcceptedWhenAllChecksHold(t: Tables, m: MessageRow)
    requires m.chatId != Empty && m.chatId in t.chats
    requires m.authorId != Empty && m.authorId in t.users
    requires m.text.Some? || m.attachmentId != Empty
    requires m.attachmentId == Empty || m.attachmentId in t.attachments
    requires m.text.Some? ==> Utf16Length(m.text.value) <= MaxMessageTextLength
    ensures ValidateMessageInput(t, Some(m)) == if LinksStored(t, m.chatId) then Returned(true) else Threw(NullReference)
  {
  }

  /**
   * Text of 3751 characters outside the Basic Multilingual Plane is 7502 code units
   * long: refused (all else valid), or a throw for a chat that links a user who is gone.
   */
  lemma AstralTextOverBoundRefused(t: Tables, m: MessageRow)
    requires CheckNull(Some(m)) && m.chatId in t.chats && m.authorId in t.users
    requires m.text.Some? && |m.text.value| == 3751
    requires forall i :: 0 <= i < |m.text.value| ==> m.text.value[i] as int > 0xFFFF
    ensures ValidateMessageInput(t, Some(m)) == if LinksStored(t, m.chatId) then Returned(false) else Threw(NullReference)
  {
    AstralUtf16Length(m.text.value);
  }

  /** Neither text nor attachment: refused, whatever the tables hold. */
  lemma NoTextNoAttachmentRejected(t: Tables, m: MessageRow)
    requires m.text.None? && m.attachmentId == Empty
    ensures ValidateMessageInput(t, Some(m)) == Returned(false)
  {
  }

  /**
   * 7500 characters pass and 7501 do not (all else valid), for a chat whose linked
   * users are all stored; otherwise validation throws before the length is looked at.
   */
  lemma TextLengthBoundary(t: Tables, m: MessageRow)
    requires m.chatId != Empty && m.chatId in t.chats
    requires m.authorId != Empty && m.authorId in t.users
    requires m.attachmentId == Empty || m.attachmentId in t.attachments
    requires m.text.Some?
    ensures Utf16Length(m.text.value) == MaxMessageTextLength ==>
      ValidateMessageInput(t, Some(m)) == if LinksStored(t, m.chatId) then Returned(true) else Threw(NullReference)
    ensures Utf16Length(m.text.value) == MaxMessageTextLength + 1 ==>
      ValidateMessageInput(t, Some(m)) == if LinksStored(t, m.chatId) then Returned(false) else Threw(NullReference)
  {
  }

  /**
   * Text "" skips the length check, so "" with no attachment is accepted (validation
   * throws instead when the chat links a user who is gone).
   */
  lemma EmptyTextAccepted(t: Tables, m: MessageRow)
    requires m.chatId != Empty && m.chatId in t.chats
    requires m.authorId != Empty && m.authorId in t.users
    requires m.text == Some("") && m.attachmentId == Empty
    ensures ValidateMessageInput(t, Some(m)) == if LinksStored(t, m.chatId) then Returned(true) else Threw(NullReference)
  {
  }

  /**
   * An attachment alone (no text) is enough, provided it exists (validation throws
   * instead when the chat links a user who is gone).
   */
  lemma AttachmentOnlyAccepted(t: Tables, m: MessageRow)
    requires m.chatId != Empty && m.chatId in t.chats
    requires m.authorId != Empty && m.authorId in t.users
    requires m.text.None? && m.attachmentId != Empty
    ensures !LinksStored(t, m.chatId) ==> ValidateMessageInput(t, Some(m)) == Threw(NullReference)
    ensures LinksStored(t, m.chatId) ==> ValidateMessageInput(t, Some(m)) == Returned(m.attachmentId in t.attachments)
  {
  }
}
