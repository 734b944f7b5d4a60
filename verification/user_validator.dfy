/**
 * UserRepositoryInputValidator: required fields, length bounds, email uniqueness
 * (with the self-update exemption) and avatar existence, checked in that order.
 * It only reads; the user is never written.
 */
module UserValidator {
  import opened Common
  import opened Entities
  import opened Constraints
  import opened Storage

  /** The user and its four string fields are non-null. */
  predicate CheckNull(u: Option<UserRow>)
  {
    && u.Some?
    && u.value.name.Some? && u.value.lastName.Some?
    && u.value.email.Some? && u.value.password.Some?
  }

  predicate CheckRange(u: UserRow)
    requires CheckNull(Some(u))
  {
    && InRange(Utf16Length(u.name.value), MinUserNameLength, MaxUserNameLength)
    && InRange(Utf16Length(u.lastName.value), MinUserLastNameLength, MaxUserLastNameLength)
    && InRange(Utf16Length(u.email.value), MinUserEmailLength, MaxUserEmailLength)
    && InRange(Utf16Length(u.password.value), MinUserPasswordLength, MaxUserPasswordLength)
  }

  /** SELECT COUNT([Email]) FROM [User] WHERE [Email] = @email */
  function NumberOfSameEmails(users: map<Id, UserRow>, email: string): nat
  {
    |set k | k in users && users[k].email == Some(email)|
  }

  /** The count is zero exactly when no stored user has that email. */
  lemma {:induction false} NoSameEmailIffCountZero(users: map<Id, UserRow>, email: string)
    ensures NumberOfSameEmails(users, email) == 0 <==>
      forall k :: k in users ==> users[k].email != Some(email)
  {
    var s := set k | k in users && users[k].email == Some(email);
    if k :| k in users && users[k].email == Some(email) {
      assert k in s;
      assert |s| != 0;
    } else {
      assert s == {};
    }
  }

  /**
   * Only meant for Update: the stored user with this Id still has this email.
   * An Id that is not stored makes the source dereference null.
   */
  function CheckIfEmailUnchanged(users: map<Id, UserRow>, u: UserRow): (r: Outcome<bool>)
    ensures r.Threw? <==> u.id !in users
  {
    if u.id in users then Returned(users[u.id].email == u.email) else Threw(NullReference)
  }

  function CheckEmailUniqueness(users: map<Id, UserRow>, u: UserRow): Outcome<bool>
    requires u.email.Some?
  {
    var emailUnchanged := if u.id != Empty then CheckIfEmailUnchanged(users, u) else Returned(false);
    match emailUnchanged
    case Threw(f) => Threw(f)
    case Returned(true) => Returned(true)
    case Returned(false) => Returned(!(NumberOfSameEmails(users, u.email.value) > 0))
  }

  /** Guid.Empty means "no avatar"; any other id must name a stored attachment. */
  predicate CheckAvatarAttachmentExistens(attachments: map<Id, AttachmentRow>, avatarId: Id)
  {
    avatarId == Empty || avatarId in attachments
  }

  /** The short-circuit conjunction of the four checks; a throw in the third one propagates. */
  function ValidateUserInput(t: Tables, u: Option<UserRow>): Outcome<bool>
  {
    if !CheckNull(u) || !CheckRange(u.value) then Returned(false)
    else
      match CheckEmailUniqueness(t.users, u.value)
      case Threw(f) => Threw(f)
      case Returned(unique) =>
        Returned(unique && CheckAvatarAttachmentExistens(t.attachments, u.value.avatarId))
  }

  /** No two stored users share an email. */
  predicate EmailsUnique(users: map<Id, UserRow>)
  {
    forall k1, k2 :: k1 in users && k2 in users && k1 != k2 && users[k1].email.Some? ==>
      users[k1].email != users[k2].email
  }

  /** A user missing a field or out of bounds is refused before any lookup: the tables do not matter. */
  lemma RejectedBeforeLookups(t1: Tables, t2: Tables, u: Option<UserRow>)
    requires !CheckNull(u) || !CheckRange(u.value)
    ensures ValidateUserInput(t1, u) == ValidateUserInput(t2, u) == Returned(false)
  {
  }

  /** Accepted means: every field present and in bounds, the avatar exists, and no OTHER stored user has the email. */
  lemma {:induction false} AcceptedUserIsSound(t: Tables, u: UserRow)
    requires EmailsUnique(t.users)
    requires ValidateUserInput(t, Some(u)) == Returned(true)
    ensures CheckNull(Some(u)) && CheckRange(u)
    ensures u.avatarId == Empty || u.avatarId in t.attachments
    ensures forall k :: k in t.users && k != u.id ==> t.users[k].email != u.email
  {
    if u.id != Empty && u.id in t.users && t.users[u.id].email == u.email {
      // The self-update exemption: the email is this user's own, so by uniqueness nobody else's.
    } else {
      NoSameEmailIffCountZero(t.users, u.email.value);
    }
  }

  /**
   * The self-update exemption: a stored user re-submitting its own email passes the
   * uniqueness check although a user with that email exists (itself).
   */
  lemma {:induction false} OwnEmailAccepted(t: Tables, u: UserRow)
    requires CheckNull(Some(u)) && CheckRange(u)
    requires u.id != Empty && u.id in t.users && t.users[u.id].email == u.email
    requires CheckAvatarAttachmentExistens(t.attachments, u.avatarId)
    ensures NumberOfSameEmails(t.users, u.email.value) > 0
    ensures ValidateUserInput(t, Some(u)) == Returned(true)
  {
    NoSameEmailIffCountZero(t.users, u.email.value);
  }

  /** Otherwise an email that some stored user already has is refused. */
  lemma {:induction false} TakenEmailRejected(t: Tables, u: UserRow, other: Id)
    requires CheckNull(Some(u)) && CheckRange(u)
    requires u.id == Empty || (u.id in t.users && t.users[u.id].email != u.email)
    requires other in t.users && t.users[other].email == u.email
    ensures ValidateUserInput(t, Some(u)) == Returned(false)
  {
    NoSameEmailIffCountZero(t.users, u.email.value);
  }

  /** A fresh email, a well-formed user and an existing (or no) avatar: accepted. */
  lemma {:induction false} FreshEmailAccepted(t: Tables, u: UserRow)
    requires CheckNull(Some(u)) && CheckRange(u)
    requires u.id == Empty || u.id in t.users
    requires forall k :: k in t.users ==> t.users[k].email != u.email
    requires CheckAvatarAttachmentExistens(t.attachments, u.avatarId)
    ensures ValidateUserInput(t, Some(u)) == Returned(true)
  {
    NoSameEmailIffCountZero(t.users, u.email.value);
  }

  /**
   * A Name of 13 characters outside the Basic Multilingual Plane is 26 code units
   * long, over the bound of 25: refused before any lookup.
   */
  lemma AstralNameOverBoundRefused(t: Tables, u: UserRow)
    requires CheckNull(Some(u)) && |u.name.value| == 13
    requires forall i :: 0 <= i < |u.name.value| ==> u.name.value[i] as int > 0xFFFF
    ensures ValidateUserInput(t, Some(u)) == Returned(false)
  {
    AstralUtf16Length(u.name.value);
  }

  /** A non-Empty Id that names no stored user makes the email check dereference null. */
  lemma UnknownIdThrows(t: Tables, u: UserRow)
    requires CheckNull(Some(u)) && CheckRange(u)
    requires u.id != Empty && u.id !in t.users
    ensures ValidateUserInput(t, Some(u)) == Threw(NullReference)
  {
  }
}
