/** UserRepository: Create, Get, Update (three-way result) and Delete over the User table. */
module UserRepository {
  import opened Common
  import opened Entities
  import opened Storage
  import opened UserValidator

  /** Gives the user its new id (Guid.NewGuid() is the parameter freshId). */
  method AddUserData(user: User, freshId: Id)
    modifies user
    ensures user.Row() == old(user.Row()).(id := freshId)
  {
    user.id := freshId;
  }

  /**
   * Validation throws: the fault propagates and nothing changes. Invalid: null and
   * nothing changes. Valid: the same object, now under a fresh id, is inserted with the
   * caller's five data fields. A null argument is not handled by the source (its
   * rejection log dereferences it), so `user` is non-null here.
   */
  method Create(store: Store, user: User, freshId: Id) returns (r: Outcome<User?>)
    requires store.Valid()
    requires freshId != Empty && freshId !in store.users
    modifies store, user
    ensures store.Valid()
    ensures ValidateUserInput(old(store.Db()), Some(old(user.Row()))) != Returned(true) ==>
      && store.Db() == old(store.Db())
      && user.Row() == old(user.Row())
      && r == (match ValidateUserInput(old(store.Db()), Some(old(user.Row())))
               case Threw(f) => Threw(f)
               case Returned(_) => Returned(null))
    ensures ValidateUserInput(old(store.Db()), Some(old(user.Row()))) == Returned(true) ==>
      && r == Returned(user)
      && user.Row() == old(user.Row()).(id := freshId)
      && store.Db() == old(store.Db()).(users := old(store.users)[freshId := user.Row()])
    ensures EmailsUnique(old(store.users)) && old(user.id) == Empty ==> EmailsUnique(store.users)
  {
    var valid := ValidateUserInput(store.Db(), Some(user.Row()));
    if valid.Threw? {
      return Threw(valid.fault);
    }
    if !valid.value {
      return Returned(null);
    }
    AddUserData(user, freshId);
    store.users := store.users[freshId := user.Row()];
    r := Returned(user);
    if EmailsUnique(old(store.users)) && old(user.id) == Empty {
      NoSameEmailIffCountZero(old(store.users), user.email.value);
    }
  }

  /** The stored user with that id, or null. */
  method Get(store: Store, userId: Id) returns (r: Option<UserRow>)
    requires store.Valid()
    ensures r.Some? <==> userId in store.users
    ensures r.Some? ==> r.value == store.users[userId] && r.value.id == userId
  {
    if userId in store.users {
      r := Some(store.users[userId]);
    } else {
      r := None;
    }
  }

  /**
   * null: no stored user has that id (checked before validation). false: invalid data,
   * nothing changes. true: the row is overwritten with the five data fields. The user
   * object itself is never written.
   */
  method Update(store: Store, user: User) returns (r: Option<bool>)
    requires store.Valid()
    modifies store
    ensures store.Valid()
    ensures user.id !in old(store.users) ==> r == None && store.Db() == old(store.Db())
    ensures user.id in old(store.users) ==>
      && r.Some?
      && (r.value <==> ValidateUserInput(old(store.Db()), Some(user.Row())) == Returned(true))
      && store.Db() == (if r.value then old(store.Db()).(users := old(store.users)[user.id := user.Row()])
                        else old(store.Db()))
    ensures EmailsUnique(old(store.users)) ==> EmailsUnique(store.users)
  {
    var found := Get(store, user.id);
    if found.None? {
      return None;
    }
    // The Id is stored, so the email check cannot throw here.
    var valid := ValidateUserInput(store.Db(), Some(user.Row()));
    if valid != Returned(true) {
      return Some(false);
    }
    if EmailsUnique(store.users) {
      AcceptedUserIsSound(store.Db(), user.Row());
    }
    store.users := store.users[user.id := user.Row()];
    r := Some(true);
  }

  /**
   * False (nothing changes) for an unknown id; otherwise the row is removed and true
   * returned. Only the User row goes: the user's ChatMembers links and the messages
   * they wrote stay, naming an id that is no longer stored.
   */
  method Delete(store: Store, userId: Id) returns (deleted: bool)
    requires store.Valid()
    modifies store
    ensures store.Valid()
    ensures deleted <==> userId in old(store.users)
    ensures store.Db() == old(store.Db()).(users := old(store.users) - {userId})
    ensures userId !in store.users
  {
    var found := Get(store, userId);
    if found.None? {
      return false;
    }
    store.users := store.users - {userId};
    deleted := true;
  }

  /**
   * As written, Create honours a caller-supplied Id in the self-update exemption: a user
   * posing with a stored user's Id and that user's email passes validation, and the row
   * inserted under the fresh id duplicates the email.
   */
  lemma {:induction false} CreateWithPresetIdDuplicatesEmail(t: Tables, u: UserRow, freshId: Id)
    requires CheckNull(Some(u)) && CheckRange(u)
    requires u.id != Empty && u.id in t.users && t.users[u.id].email == u.email
    requires CheckAvatarAttachmentExistens(t.attachments, u.avatarId)
    requires freshId != u.id
    ensures ValidateUserInput(t, Some(u)) == Returned(true)
    ensures !EmailsUnique(t.users[freshId := u.(id := freshId)])
  {
    OwnEmailAccepted(t, u);
    var users' := t.users[freshId := u.(id := freshId)];
    assert freshId in users' && u.id in users' && users'[freshId].email == users'[u.id].email;
  }
}
