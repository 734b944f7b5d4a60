/** The older AttachmentRepositoryInputValidator: null checks, then size and type-length bounds. */
module LegacyAttachmentValidator {
  import opened Common
  import opened Constraints
  import opened Entities
  import AttachmentValidator

  predicate CheckNull(a: Option<AttachmentRow>)
  {
    a.Some? && a.value.fileType.Some? && a.value.file.Some?
  }

  predicate CheckRange(a: AttachmentRow)
    requires a.fileType.Some? && a.file.Some?
  {
    && InRange(|a.file.value|, MinFileSize, MaxFileSize)
    && InRange(Utf16Length(a.fileType.value), MinFileTypeLength, MaxFileTypeLength)
  }

  predicate ValidateInput(a: Option<AttachmentRow>)
  {
    CheckNull(a) && CheckRange(a.value)
  }

  /** Checking the size before the type accepts exactly what the newer validator accepts. */
  lemma {:induction false} AgreesWithNewerValidator(a: Option<AttachmentRow>)
    ensures ValidateInput(a) <==> AttachmentValidator.ValidateAttachmentInput(a)
  {
  }
}
