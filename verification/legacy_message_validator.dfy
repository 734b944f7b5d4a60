/**
 * The older MessageRepositoryInputValidator: null checks, chat and author lookups and
 * a text range in which "" fails; the attachment is never looked up.
 */
module LegacyMessageValidator {
  import opened Common
  import opened Constraints
  import opened Entities
  import opened Storage
  import MessageValidator

  /** Non-null, chat and author ids set, and text or an attachment present. */
  predicate CheckNull(m: Option<MessageRow>)
  {
    && m.Some?
    && m.value.chatId != Empty
    && m.value.authorId != Empty
    && (m.value.text.Some? || m.value.attachmentId != Empty)
  }

  /** Text or attachment again; a null text passes, any other text needs a length in range. */
  predicate CheckRange(m: MessageRow)
  {
    if m.attachmentId == Empty && m.text.None? then false
    else m.text.None? || InRange(Utf16Length(m.text.value), MinMessageTextLength, MaxMessageTextLength)
  }

  predicate ValidateSend(t: Tables, m: Option<MessageRow>)
  {
    && CheckNull(m)
    && m.value.chatId in t.chats
    && m.value.authorId in t.users
    && CheckRange(m.value)
  }

  /** Accepted exactly when the ids are set and stored, and the text is null or 1 to 7500 long (with an attachment when null). */
  lemma {:induction false} AcceptedExactly(t: Tables, m: MessageRow)
    ensures ValidateSend(t, Some(m)) <==>
      && m.chatId != Empty && m.chatId in t.chats
      && m.authorId != Empty && m.authorId in t.users
      && (m.text.None? ==> m.attachmentId != Empty)
      && (m.text.Some? ==> 1 <= Utf16Length(m.text.value) <= 7500)
  {
  }

  /**
   * Text "" with no attachment: this validator rejects it, the newer one accepts it
   * (it skips the length check for empty text) or, for a chat that links a user who is
   * gone, throws.
   */
  lemma {:induction false} EmptyTextDiffers(t: Tables, m: MessageRow)
    requires m.chatId != Empty && m.chatId in t.chats && m.authorId != Empty && m.authorId in t.users
    requires m.text == Some("") && m.attachmentId == Empty
    ensures !ValidateSend(t, Some(m))
    ensures MessageValidator.ValidateMessageInput(t, Some(m)) ==
      if LinksStored(t, m.chatId) then Returned(true) else Threw(NullReference)
  {
  }

  /** An attachment id that names no stored attachment does not stop a message here. */
  lemma {:induction false} AttachmentNeverLookedUp(t: Tables, m: MessageRow)
    requires m.chatId != Empty && m.chatId in t.chats && m.authorId != Empty && m.authorId in t.users
    requires m.text.None? && m.attachmentId != Empty && m.attachmentId !in t.attachments
    ensures ValidateSend(t, Some(m))
    ensures MessageValidator.ValidateMessageInput(t, Some(m)) != Returned(true)
  {
  }
}
