/** AttachmentRepositoryInputValidator: field presence and bounds, no lookups, no writes. */
module AttachmentValidator {
  import opened Common
  import opened Entities
  import opened Constraints

  /** The attachment, its Type and its File are all non-null. */
  predicate CheckNull(a: Option<AttachmentRow>)
  {
    a.Some? && a.value.fileType.Some? && a.value.file.Some?
  }

  /** Type length and File size within their bounds. */
  predicate CheckRange(a: AttachmentRow)
    requires a.fileType.Some? && a.file.Some?
  {
    && InRange(Utf16Length(a.fileType.value), MinFileTypeLength, MaxFileTypeLength)
    && InRange(|a.file.value|, MinFileSize, MaxFileSize)
  }

  /** CheckNull, then (only if it passes) CheckRange. */
  predicate ValidateAttachmentInput(a: Option<AttachmentRow>)
  {
    CheckNull(a) && CheckRange(a.value)
  }

  /** What a stored attachment is like: both fields present and within bounds. */
  predicate WellFormed(a: AttachmentRow)
  {
    match (a.fileType, a.file)
    case (Some(t), Some(f)) => 1 <= Utf16Length(t) <= 25 && 1 <= |f| <= 104857600
    case _ => false
  }

  /** The validator accepts exactly the well-formed attachments; its result depends on nothing but the fields. */
  lemma ValidatorAcceptsExactlyWellFormed(a: Option<AttachmentRow>)
    ensures ValidateAttachmentInput(a) <==> a.Some? && WellFormed(a.value)
  {
  }

  /**
   * Bounds are inclusive: a Type of 25 UTF-16 code units and 100 MB pass, one more
   * fails, and so does an empty file.
   */
  lemma {:induction false} BoundsAreInclusive(id: Id, t: string, f: seq<byte>)
    requires 1 <= |t| && 1 <= |f|
    ensures Utf16Length(t) <= MaxFileTypeLength && |f| <= MaxFileSize ==>
      ValidateAttachmentInput(Some(AttachmentRow(id, Some(t), Some(f))))
    ensures Utf16Length(t) == MaxFileTypeLength + 1 ==> !ValidateAttachmentInput(Some(AttachmentRow(id, Some(t), Some(f))))
    ensures |f| == MaxFileSize + 1 ==> !ValidateAttachmentInput(Some(AttachmentRow(id, Some(t), Some(f))))
    ensures !ValidateAttachmentInput(Some(AttachmentRow(id, Some(t), Some([]))))
  {
  }
}
