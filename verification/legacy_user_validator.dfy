/**
 * The older UserRepositoryInputValidator: users carry their avatar bytes inline; a
 * missing avatar is replaced by an empty one before anything else is checked, and
 * there is no email-uniqueness or avatar lookup.
 */
module LegacyUserValidator {
  import opened Common
  import opened Constraints

  /** An older User object's state as a value. */
  datatype LegacyUserRow = LegacyUserRow(
    id: Id,
    name: Option<string>,
    lastName: Option<string>,
    email: Option<string>,
    password: Option<string>,
    avatar: Option<seq<byte>>)

  class LegacyUser {
    var id: Id
    var name: Option<string>
    var lastName: Option<string>
    var email: Option<string>
    var password: Option<string>
    var avatar: Option<seq<byte>>

    function Row(): LegacyUserRow
      reads this
    {
      LegacyUserRow(id, name, lastName, email, password, avatar)
    }

    constructor (row: LegacyUserRow)
      ensures Row() == row
    {
      id, name, lastName, email, password, avatar :=
        row.id, row.name, row.lastName, row.email, row.password, row.avatar;
    }
  }

  /** The row with a missing avatar replaced by the default, empty one. */
  function WithDefaultAvatar(u: LegacyUserRow): (r: LegacyUserRow)
    ensures r.avatar.Some?
    ensures u.avatar.Some? ==> r == u
  {
    if u.avatar.None? then u.(avatar := Some([])) else u
  }

  predicate CheckNull(u: LegacyUserRow)
  {
    u.name.Some? && u.lastName.Some? && u.email.Some? && u.password.Some?
  }

  predicate CheckRange(u: LegacyUserRow)
    requires CheckNull(u) && u.avatar.Some?
  {
    && InRange(Utf16Length(u.name.value), MinUserNameLength, MaxUserNameLength)
    && InRange(Utf16Length(u.lastName.value), MinUserLastNameLength, MaxUserLastNameLength)
    && InRange(Utf16Length(u.email.value), MinUserEmailLength, MaxUserEmailLength)
    && InRange(Utf16Length(u.password.value), MinUserPasswordLength, MaxUserPasswordLength)
    && |u.avatar.value| <= MaxImageSize
  }

  /** The verdict on a user that already has its default avatar. */
  predicate Valid(u: LegacyUserRow)
    requires u.avatar.Some?
  {
    CheckNull(u) && CheckRange(u)
  }

  /** The four text fields within bounds and the avatar at most 2 MB; a missing avatar counts as empty. */
  lemma {:induction false} AcceptedExactly(u: LegacyUserRow)
    ensures Valid(WithDefaultAvatar(u)) <==>
      && u.name.Some? && 1 <= Utf16Length(u.name.value) <= 25
      && u.lastName.Some? && 1 <= Utf16Length(u.lastName.value) <= 25
      && u.email.Some? && 1 <= Utf16Length(u.email.value) <= 254
      && u.password.Some? && 1 <= Utf16Length(u.password.value) <= 25
      && (u.avatar.Some? ==> |u.avatar.value| <= 2097152)
  {
  }

  /**
   * null: rejected, nothing written. Otherwise a missing avatar is written as empty
   * first, and stays written whatever the verdict.
   */
  method ValidateCreate(user: LegacyUser?) returns (valid: bool)
    modifies user
    ensures user == null ==> !valid
    ensures user != null ==>
      && user.Row() == WithDefaultAvatar(old(user.Row()))
      && (valid <==> Valid(user.Row()))
  {
    if user == null {
      return false;
    }
    if user.avatar.None? {
      user.avatar := Some([]);
    }
    valid := CheckNull(user.Row()) && CheckRange(user.Row());
  }
}
