/** AttachmentRepository: Create, Get and Delete over the Attachment table. */
module AttachmentRepository {
  import opened Common
  import opened Entities
  import opened Storage
  import opened AttachmentValidator

  /** Gives the attachment its new id (Guid.NewGuid() is the parameter freshId). */
  method AddAttachmentData(attachment: Attachment, freshId: Id)
    modifies attachment
    ensures attachment.Row() == old(attachment.Row()).(id := freshId)
  {
    attachment.id := freshId;
  }

  /**
   * Invalid input: null, nothing stored, the object untouched. Valid input: the same
   * object comes back under a fresh id and is inserted with its Type and File as given.
   */
  method Create(store: Store, attachment: Attachment?, freshId: Id) returns (r: Attachment?)
    requires store.Valid()
    requires freshId != Empty && freshId !in store.attachments
    modifies store, attachment
    ensures store.Valid()
    ensures !ValidateAttachmentInput(old(AttachmentInput(attachment))) ==>
      && r == null
      && store.Db() == old(store.Db())
      && (attachment != null ==> attachment.Row() == old(attachment.Row()))
    ensures ValidateAttachmentInput(old(AttachmentInput(attachment))) ==>
      && r == attachment && r != null
      && r.Row() == old(attachment.Row()).(id := freshId)
      && WellFormed(r.Row())
      && store.Db() == old(store.Db()).(attachments := old(store.attachments)[freshId := r.Row()])
  {
    var valid := ValidateAttachmentInput(AttachmentInput(attachment));
    if !valid {
      return null;
    }
    ValidatorAcceptsExactlyWellFormed(AttachmentInput(attachment));
    AddAttachmentData(attachment, freshId);
    store.attachments := store.attachments[freshId := attachment.Row()];
    r := attachment;
  }

  /** The stored attachment with that id, or null. */
  method Get(store: Store, attachmentId: Id) returns (r: Option<AttachmentRow>)
    requires store.Valid()
    ensures r.Some? <==> attachmentId in store.attachments
    ensures r.Some? ==> r.value == store.attachments[attachmentId] && r.value.id == attachmentId
  {
    if attachmentId in store.attachments {
      r := Some(store.attachments[attachmentId]);
    } else {
      r := None;
    }
  }

  /** False (nothing changes) for an unknown id; otherwise the row is removed and true returned. */
  method Delete(store: Store, attachmentId: Id) returns (deleted: bool)
    requires store.Valid()
    modifies store
    ensures store.Valid()
    ensures deleted <==> attachmentId in old(store.attachments)
    ensures store.Db() == old(store.Db()).(attachments := old(store.attachments) - {attachmentId})
    ensures attachmentId !in store.attachments
  {
    var found := Get(store, attachmentId);
    if found.None? {
      return false;
    }
    store.attachments := store.attachments - {attachmentId};
    deleted := true;
  }
}
