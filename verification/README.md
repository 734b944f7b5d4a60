# Messenger data layer, modelled in Dafny

This project models the Messenger data-access layer (`Messenger.DataLayer.Sql`). That layer is the code that decides whether a User, Chat, Message or Attachment may be stored, rewrites it on the way in, and reads it back. It has four input validators and four repositories, plus the older snapshot validators that sit directly under `Messenger.DataLayer.Sql`.

- **Entities.** The objects callers hand to the repositories, which the source rewrites in place, are Dafny classes (`Entities.User`, `Entities.Chat`, `Entities.Message`, `Entities.Attachment`, `LegacyChatValidator.LegacyChat`, `LegacyUserValidator.LegacyUser`). Each has a snapshot function returning a row value.
- **Database.** The database is `Storage.Store`: one map per table, keyed by id. The ChatMembers links are kept per chat in insertion order. `Valid()` says every row sits under its own id, no row uses `Guid.Empty`, and every chat has its links. It does not require links to name stored users: `UserRepository.Delete` leaves a deleted user's links in place, and `Storage.LinksStored` says when a chat's links are all still good.
- **Repositories.** They are methods that modify the store. Each states its whole new state and the returned value in terms of a validator function on the old state.
- **Validators.** Validators that only read are pure functions over a table snapshot. The chat validator rewrites the chat object as it goes. Its loops and field writes are methods, specified by the pure `ChatValidator.ValidateChat`, which returns both the verdict and the object's new state.
- **Unguarded crashes.** Crashes the source does not guard against are explicit `Threw` outcomes:
  - a null dereference on an unknown user Id in the email check;
  - an index past the end of an empty Members list;
  - a negative `TOP (n)` refused by the database;
  - a null member in the member-id text of `ChatRepository.Get`'s log line. This happens for a chat that still links a user who was deleted. It reaches `GetUserChats`, `ChatRepository.Delete` and, through the message validator's chat lookup, `MessageRepository.Send`.
- **Parameters.** `Guid.NewGuid()` and `DateTime.Now` are parameters (`freshId`, `now`). So is the Guid text format (`idText`). The two duplicate-personal-chat queries are too: they are `Store.queries`, constrained only by `ChatValidator.AgreesWithTests`, which states what the unit tests establish about them.

Ids are `nat` with `0` as `Guid.Empty`. Strings are `seq<char>`, and their lengths are counted as C# counts `String.Length`: in UTF-16 code units (`Constraints.Utf16Length`). File contents are byte sequences. A C# null is `None` of an `Option`.

## Model

| member | source | states |
|---|---|---|
| `Common.IdToColumn` | Messenger/Messenger.DataLayer.Sql/SourceCode/User/UserRepository.cs:284 | Guid columns are written as NULL exactly when the id is Guid.Empty |
| `Common.IdColumnRoundTrip` | Messenger/Messenger.DataLayer.Sql/SourceCode/Message/MessageRepository.cs:266-268 | writing an id to a nullable column and reading it back (NULL read as Empty, as at MessageRepository.cs:319) gives the id back |
| `Entities.MemberIds` | Messenger/Messenger.DataLayer.Sql/SourceCode/Chat/ChatRepository.cs:273-286 | one id per member, in member order: the ChatMembers rows a chat is bound to |
| `Constraints.Utf16Length` | Messenger/Messenger.DataLayer.Sql/SourceCode/User/UserRepositoryInputValidator.cs:51-58 | the length every text bound is checked against is C#'s String.Length: between one and two code units per character |
| `Constraints.BmpUtf16Length` | Messenger/Messenger.DataLayer.Sql/SourceCode/User/UserRepositoryInputValidator.cs:51-58 | for text made only of Basic Multilingual Plane characters the bound counts characters |
| `Constraints.AstralUtf16Length` | Messenger/Messenger.DataLayer.Sql/SourceCode/User/UserRepositoryInputValidator.cs:51-58 | a character outside the Basic Multilingual Plane counts twice |
| `AttachmentValidator.ValidatorAcceptsExactlyWellFormed` | Messenger/Messenger.DataLayer.Sql/SourceCode/Attachment/AttachmentRepositoryInputValidator.cs:8-27 | an attachment is accepted iff it is non-null, has a Type of 1..25 UTF-16 code units and a File of 1..104857600 bytes; nothing else is consulted |
| `AttachmentValidator.BoundsAreInclusive` | Messenger/Messenger.Constants/SourceCode/AttachmentInputConstraints.cs:6-9 | both bounds are inclusive: a Type of 25 code units and 100 MB pass; 26 code units, 100 MB + 1 and an empty file fail |
| `AttachmentRepository.AddAttachmentData` | Messenger/Messenger.DataLayer.Sql/SourceCode/Attachment/AttachmentRepository.cs:141-144 | sets the fresh Id and nothing else |
| `AttachmentRepository.Create` | Messenger/Messenger.DataLayer.Sql/SourceCode/Attachment/AttachmentRepository.cs:40-64 | invalid: null, store and object unchanged; valid: the same object under the fresh Id, stored with Type and File as given |
| `AttachmentRepository.Get` | Messenger/Messenger.DataLayer.Sql/SourceCode/Attachment/AttachmentRepository.cs:75-97 | null iff the id is not stored, otherwise the stored row, whose Id is the one asked for |
| `AttachmentRepository.Delete` | Messenger/Messenger.DataLayer.Sql/SourceCode/Attachment/AttachmentRepository.cs:108-133 | true iff the id was stored; exactly that row is removed and nothing else changes |
| `UserValidator.NoSameEmailIffCountZero` | Messenger/Messenger.DataLayer.Sql/SourceCode/User/UserRepositoryInputValidator.cs:107-131 | the COUNT of users with an email is zero iff no stored user has it |
| `UserValidator.CheckIfEmailUnchanged` | Messenger/Messenger.DataLayer.Sql/SourceCode/User/UserRepositoryInputValidator.cs:99-105 | throws (null dereference) exactly when the Id names no stored user |
| `UserValidator.RejectedBeforeLookups` | Messenger/Messenger.DataLayer.Sql/SourceCode/User/UserRepositoryInputValidator.cs:30-59 | a null user, a null field or a length in UTF-16 code units outside Name 1..25, LastName 1..25, Email 1..254, Password 1..25 is refused whatever the tables hold |
| `UserValidator.AcceptedUserIsSound` | Messenger/Messenger.DataLayer.Sql/SourceCode/User/UserRepositoryInputValidator.cs:30-36 | an accepted user has every field present and in bounds, an Empty or stored avatar, and (when stored emails are unique) an email no other stored user has |
| `UserValidator.OwnEmailAccepted` | Messenger/Messenger.DataLayer.Sql/SourceCode/User/UserRepositoryInputValidator.cs:61-65 | a stored user re-submitting its own email passes although that email's count is non-zero |
| `UserValidator.TakenEmailRejected` | Messenger/Messenger.DataLayer.Sql/SourceCode/User/UserRepositoryInputValidator.cs:67-92 | outside that exemption, an email some stored user has is refused |
| `UserValidator.FreshEmailAccepted` | Messenger/Messenger.DataLayer.Sql/SourceCode/User/UserRepositoryInputValidator.cs:133-147 | a user whose fields are present and within bounds (in UTF-16 code units), with an unused email and an Empty or stored avatar, is accepted |
| `UserValidator.UnknownIdThrows` | Messenger/Messenger.DataLayer.Sql/SourceCode/User/UserRepositoryInputValidator.cs:101-103 | a user whose fields are present and within bounds (in UTF-16 code units) and whose non-Empty Id is not stored makes validation throw |
| `UserValidator.AstralNameOverBoundRefused` | Messenger/Messenger.DataLayer.Sql/SourceCode/User/UserRepositoryInputValidator.cs:51-52 | a Name of 13 characters outside the Basic Multilingual Plane (26 code units) is refused before any lookup |
| `UserRepository.AddUserData` | Messenger/Messenger.DataLayer.Sql/SourceCode/User/UserRepository.cs:263-266 | sets the fresh Id and nothing else |
| `UserRepository.Create` | Messenger/Messenger.DataLayer.Sql/SourceCode/User/UserRepository.cs:42-93 | a throw propagates and an invalid user gives null, both with store and object unchanged; a valid user is stored under the fresh Id with its five fields and returned; email uniqueness is kept for a user submitted without an Id |
| `UserRepository.Get` | Messenger/Messenger.DataLayer.Sql/SourceCode/User/UserRepository.cs:104-129 | null iff the id is not stored, otherwise the stored row |
| `UserRepository.Update` | Messenger/Messenger.DataLayer.Sql/SourceCode/User/UserRepository.cs:141-219 | null when the Id is not stored (checked before validation); otherwise true iff valid, and then only that row is overwritten; email uniqueness is kept |
| `UserRepository.Delete` | Messenger/Messenger.DataLayer.Sql/SourceCode/User/UserRepository.cs:230-255 | true iff the id was stored; exactly the User row is removed, and the user's links and messages stay |
| `UserRepository.CreateWithPresetIdDuplicatesEmail` | Messenger/Messenger.DataLayer.Sql/SourceCode/User/UserRepository.cs:50-92 | a new user posing with a stored user's Id and email passes validation, and storing it under a fresh id duplicates that email |
| `MessageValidator.AcceptedMessageIsSound` | Messenger/Messenger.DataLayer.Sql/SourceCode/Message/MessageRepositoryInputValidator.cs:29-45 | an accepted message has a set and stored chat whose linked users are all stored, a set and stored author, text or an attachment, an Empty or stored attachment and text of at most 7500 UTF-16 code units |
| `MessageValidator.AcceptedWhenAllChecksHold` | Messenger/Messenger.DataLayer.Sql/SourceCode/Message/MessageRepositoryInputValidator.cs:47-100 | conversely a message meeting those conditions (text counted in UTF-16 code units) is accepted, except that the chat lookup (ChatRepository.Get) throws a null dereference when the chat links a user who is gone |
| `MessageValidator.NoTextNoAttachmentRejected` | Messenger/Messenger.DataLayer.Sql/SourceCode/Message/MessageRepositoryInputValidator.cs:44 | null text and Empty attachment is refused whatever the tables hold |
| `MessageValidator.TextLengthBoundary` | Messenger/Messenger.DataLayer.Sql/SourceCode/Message/MessageRepositoryInputValidator.cs:96-100 | text of 7500 UTF-16 code units passes and 7501 fails when the chat's linked users are all stored; otherwise the chat lookup throws before the length is checked |
| `MessageValidator.AstralTextOverBoundRefused` | Messenger/Messenger.DataLayer.Sql/SourceCode/Message/MessageRepositoryInputValidator.cs:96-100 | text of 3751 characters outside the Basic Multilingual Plane (7502 code units) is refused, or the chat lookup throws first |
| `MessageValidator.EmptyTextAccepted` | Messenger/Messenger.DataLayer.Sql/SourceCode/Message/MessageRepositoryInputValidator.cs:71-82 | text "" skips the length check, so "" without an attachment is accepted; the chat lookup throws instead when the chat links a user who is gone |
| `MessageValidator.AttachmentOnlyAccepted` | Messenger/Messenger.DataLayer.Sql/SourceCode/Message/MessageRepositoryInputValidator.cs:84-94 | with no text, a message is accepted iff its attachment is stored; the chat lookup throws instead when the chat links a user who is gone |
| `MessageValidator.CheckChatExistens` | Messenger/Messenger.DataLayer.Sql/SourceCode/Message/MessageRepositoryInputValidator.cs:47-57 | the chat lookup throws a null dereference iff the chat is stored and links a user who is gone; otherwise true iff the chat is stored |
| `MessageValidator.DanglingLinkThrows` | Messenger/Messenger.DataLayer.Sql/SourceCode/Message/MessageRepositoryInputValidator.cs:47-57 | a message passing the null checks whose stored chat links a user who is gone makes validation throw a null dereference, whatever its author, text and attachment |
| `MessageRepository.AddUserData` | Messenger/Messenger.DataLayer.Sql/SourceCode/Message/MessageRepository.cs:244-249 | sets Id and Date and nothing else |
| `MessageRepository.Send` | Messenger/Messenger.DataLayer.Sql/SourceCode/Message/MessageRepository.cs:47-104 | a throw from validation propagates, nothing stored and the object untouched; invalid: null, nothing stored, Id and Date untouched; valid: the same object with fresh Id and current Date, stored with its other fields as given and its Date as the datetime column rounds it |
| `MessageRepository.Get` | Messenger/Messenger.DataLayer.Sql/SourceCode/Message/MessageRepository.cs:115-142 | null iff the id is not stored, otherwise the stored row |
| `MessageRepository.GetChatMessages` | Messenger/Messenger.DataLayer.Sql/SourceCode/Message/MessageRepository.cs:152-166 | exactly the stored messages of that chat, each once, in no particular order |
| `MessageRepository.Int32Sub` | Messenger/Messenger.DataLayer.Sql/SourceCode/Message/MessageRepository.cs:398 | the C# int difference: within 32 bits, and the true difference whenever that fits |
| `MessageRepository.Newest` | Messenger/Messenger.DataLayer.Sql/SourceCode/Message/MessageRepository.cs:441-452 | a message of the set no other in the set is newer than (the first row of ORDER BY [Date] DESC) |
| `MessageRepository.TakeNewest` | Messenger/Messenger.DataLayer.Sql/SourceCode/Message/MessageRepository.cs:441-452 | the requested number of distinct stored messages, newest first, none left out newer than one taken |
| `MessageRepository.GetNewChatMessages` | Messenger/Messenger.DataLayer.Sql/SourceCode/Message/MessageRepository.cs:181-200 | n = chat message count − current in 32-bit arithmetic (lines 380-413); n = 0 gives empty, n < 0 throws, otherwise the min(n, count) newest messages of the chat, newest first |
| `MessageRepository.Delete` | Messenger/Messenger.DataLayer.Sql/SourceCode/Message/MessageRepository.cs:211-236 | true iff the id was stored; exactly that row is removed, so Get then returns null |
| `ChatValidator.ResolvedMembers` | Messenger/Messenger.DataLayer.Sql/SourceCode/Chat/ChatRepositoryInputValidator.cs:66-91 | defined iff every member id is a stored user; then the stored users in member order |
| `ChatValidator.SameMembersQueriesAgreeWithTests` | Messenger/Messenger.DataLayer.Sql.Tests/SourceCode/Chat/ChatRepositoryInputValidatorTests.cs:20-235 | the four test facts about the duplicate lookups are satisfiable: "a personal chat with these members exists" meets them |
| `ChatValidator.ValidateChat` | Messenger/Messenger.DataLayer.Sql/SourceCode/Chat/ChatRepositoryInputValidator.cs:34-56 | a chat accepted has resolved members and the fresh Id |
| `ChatValidator.ResolvedKeepsIds` | Messenger/Messenger.DataLayer.Sql/SourceCode/Chat/ChatRepositoryInputValidator.cs:72-73 | resolving members through the user table keeps every member's id |
| `ChatValidator.RejectedUntouched` | Messenger/Messenger.DataLayer.Sql/SourceCode/Chat/ChatRepositoryInputValidator.cs:60-91 | a null chat, a null Members list or an unknown member: refused, and the object is left as it was |
| `ChatValidator.RewritesPersist` | Messenger/Messenger.DataLayer.Sql/SourceCode/Chat/ChatRepositoryInputValidator.cs:40-112 | once members resolve (lines 40-48 and 97-112) the object has resolved members in order, the fresh Id, Group iff more than two members; a personal chat loses admin, name and avatar, a group keeps them; whatever the verdict |
| `ChatValidator.PersonalVerdict` | Messenger/Messenger.DataLayer.Sql/SourceCode/Chat/ChatRepositoryInputValidator.cs:123-203 | a personal chat is valid iff the one- or two-person lookup on its members' ids is false; with no members it throws |
| `ChatValidator.GroupVerdict` | Messenger/Messenger.DataLayer.Sql/SourceCode/Chat/ChatRepositoryInputValidator.cs:50-55 | a group is valid iff the admin is a member, the name is non-null with 1..50 UTF-16 code units, and the avatar is Empty or stored |
| `ChatValidator.DuplicatePersonalRejected` | Messenger/Messenger.DataLayer.Sql/SourceCode/Chat/ChatRepositoryInputValidator.cs:42-47 | with lookups that agree with the tests, a personal chat whose members already have one is refused |
| `ChatValidator.OtherPairAccepted` | Messenger/Messenger.DataLayer.Sql.Tests/SourceCode/Chat/ChatRepositoryInputValidatorTests.cs:172-235 | with lookups that agree with the tests, (u2, u3) is accepted when (u1, u2) is the only personal chat |
| `ChatValidator.ResolveMembers` | Messenger/Messenger.DataLayer.Sql/SourceCode/Chat/ChatRepositoryInputValidator.cs:68-86 | looking every member up and then scanning for a missing one gives `ResolvedMembers` |
| `ChatValidator.AdminIsChatMember` | Messenger/Messenger.DataLayer.Sql/SourceCode/Chat/ChatRepositoryInputValidator.cs:205-219 | true iff some member carries the admin's id |
| `ChatValidator.CheckMembersExistensAndAddThemToChat` | Messenger/Messenger.DataLayer.Sql/SourceCode/Chat/ChatRepositoryInputValidator.cs:66-91 | true iff every member resolves, and then Members is replaced by the resolved users; otherwise the chat is untouched |
| `ChatValidator.AddChatData` | Messenger/Messenger.DataLayer.Sql/SourceCode/Chat/ChatRepositoryInputValidator.cs:97-105 | sets the fresh Id, and the type by member count, nothing else |
| `ChatValidator.CleanExcessiveData` | Messenger/Messenger.DataLayer.Sql/SourceCode/Chat/ChatRepositoryInputValidator.cs:107-112 | clears admin, name and avatar, nothing else |
| `ChatValidator.SamePersonalChatExists` | Messenger/Messenger.DataLayer.Sql/SourceCode/Chat/ChatRepositoryInputValidator.cs:123-134 | one member: the one-person lookup; none: index out of range; otherwise the two-person lookup on the first two |
| `ChatValidator.ValidateChatInputAndAddData` | Messenger/Messenger.DataLayer.Sql/SourceCode/Chat/ChatRepositoryInputValidator.cs:34-56 | verdict and the object's new state are those of `ValidateChat` on its old state |
| `ChatRepository.WithChat` | Messenger/Messenger.DataLayer.Sql/SourceCode/Chat/ChatRepository.cs:232-287 | the chat's header and one link per member inserted together; no other table changes |
| `ChatRepository.Create` | Messenger/Messenger.DataLayer.Sql/SourceCode/Chat/ChatRepository.cs:57-107 | the object ends as the validator leaves it; a throw propagates and an invalid chat gives null, store unchanged; a valid chat is stored with its links and returned |
| `ChatRepository.RetrieveChatMembers` | Messenger/Messenger.DataLayer.Sql/SourceCode/Chat/ChatRepository.cs:360-374 | each linked user looked up again, null for one no longer stored, in link order |
| `ChatRepository.Get` | Messenger/Messenger.DataLayer.Sql/SourceCode/Chat/ChatRepository.cs:118-144 | null iff the id is not stored; a null dereference when the chat links a user who is gone (the log line at :141 lists member ids); otherwise the stored header and every linked user, in link order (lines 289-314) |
| `ChatRepository.LinkedViews` | Messenger/Messenger.DataLayer.Sql/SourceCode/Chat/ChatRepository.cs:404-418 | one copy of the chat for each link of that chat to the user |
| `ChatRepository.GetUserChats` | Messenger/Messenger.DataLayer.Sql/SourceCode/Chat/ChatRepository.cs:156-170 | throws (null dereference) iff one of the user's chats links a user who is gone; otherwise every chat appears as many times as the user is linked to it (lines 376-418), as Get returns it, and no other chat appears |
| `ChatRepository.Delete` | Messenger/Messenger.DataLayer.Sql/SourceCode/Chat/ChatRepository.cs:181-206 | false for an unknown id, nothing changed; a null dereference from Get, nothing deleted, when the chat links a user who is gone; otherwise true, with the chat and its links removed and nothing else changed |
| `ChatRepository.GetAfterCreate` | Messenger/Messenger.DataLayer.Sql/SourceCode/Chat/ChatRepository.cs:289-314 | after a successful Create the store stays consistent, every linked user is stored, and Get shows the created header and every member, in order |
| `ChatRepository.AppendedIsJoinedPlusSeparator` | Messenger/Messenger.DataLayer.Sql/SourceCode/Chat/ChatRepository.cs:220-225 | for at least one member, the text the loop appends is the ids joined by ", " plus one trailing ", " |
| `ChatRepository.JoinedSnoc` | Messenger/Messenger.DataLayer.Sql/SourceCode/Chat/ChatRepository.cs:220-223 | joining one more id adds ", " and its bracketed text |
| `ChatRepository.RepresentChatMembersAsStringOfIds` | Messenger/Messenger.DataLayer.Sql/SourceCode/Chat/ChatRepository.cs:210-228 | "Members = [null]" for a null chat or Members; a null dereference for a null member; "Members = " and the bracketed ids joined by ", " otherwise; "Members " for an empty list |
| `LegacyChatValidator.WithInfo` | Messenger/Messenger.DataLayer.Sql/ChatRepositoryInputValidator.cs:32-57 | fresh Id, Group iff more than two members; a group's missing name becomes "New Chat" and missing avatar empty; a personal chat loses only its admin |
| `LegacyChatValidator.VerdictByType` | Messenger/Messenger.DataLayer.Sql/ChatRepositoryInputValidator.cs:8-21 | a group is valid iff its admin is a member and its name is null or 1..25 UTF-16 code units long; a personal chat iff its name is null or in that range |
| `LegacyChatValidator.UnnamedGroupPassesRange` | Messenger/Messenger.DataLayer.Sql/InputRestrictionsAndDefaultValues.cs:17 | an unnamed group is named "New Chat" and then valid iff its admin is a member |
| `LegacyChatValidator.NameBoundsAreUserNameBounds` | Messenger/Messenger.DataLayer.Sql/ChatRepositoryInputValidator.cs:74-82 | a name of 26 to 50 UTF-16 code units fails here (user-name bounds) but passes the newer chat-name check |
| `LegacyChatValidator.AddChatInfo` | Messenger/Messenger.DataLayer.Sql/ChatRepositoryInputValidator.cs:32-57 | the object becomes `WithInfo` of its old state |
| `LegacyChatValidator.ValidateCreateAndAddInfo` | Messenger/Messenger.DataLayer.Sql/ChatRepositoryInputValidator.cs:8-30 | verdict and new object state are those of `ValidateCreate`; a null chat or Members is refused untouched |
| `LegacyMessageValidator.AcceptedExactly` | Messenger/Messenger.DataLayer.Sql/MessageRepositoryInputValidator.cs:19-67 | accepted iff chat and author are set and stored, and the text is 1..7500 UTF-16 code units long or null with an attachment |
| `LegacyMessageValidator.EmptyTextDiffers` | Messenger/Messenger.DataLayer.Sql/MessageRepositoryInputValidator.cs:59-66 | text "" without an attachment is refused here; the newer validator accepts it, or throws when the chat links a user who is gone |
| `LegacyMessageValidator.AttachmentNeverLookedUp` | Messenger/Messenger.DataLayer.Sql/MessageRepositoryInputValidator.cs:19-27 | an attachment id naming nothing stored is accepted here and never accepted by the newer validator |
| `LegacyUserValidator.WithDefaultAvatar` | Messenger/Messenger.DataLayer.Sql/UserRepositoryInputValidator.cs:18 | a missing avatar becomes present; a present one is kept |
| `LegacyUserValidator.AcceptedExactly` | Messenger/Messenger.DataLayer.Sql/UserRepositoryInputValidator.cs:15-41 | accepted iff the four text fields are present and within bounds in UTF-16 code units, and the avatar, counting a missing one as empty, is at most 2097152 bytes |
| `LegacyUserValidator.ValidateCreate` | Messenger/Messenger.DataLayer.Sql/UserRepositoryInputValidator.cs:7-26 | null is refused with no writes; otherwise the default avatar is written first and stays whatever the verdict |
| `LegacyAttachmentValidator.AgreesWithNewerValidator` | Messenger/Messenger.DataLayer.Sql/AttachmentRepositoryInputValidator.cs:8-33 | checks the size before the type yet accepts exactly what the newer attachment validator accepts |
| `Scenarios.AttachmentLifecycle` | Messenger/Messenger.DataLayer.Sql/SourceCode/Attachment/AttachmentRepository.cs:40-133 | Get after Create returns the fresh Id with Type and File as given; after Delete, Get returns null |
| `Scenarios.UserLifecycle` | Messenger/Messenger.DataLayer.Sql/SourceCode/User/UserRepository.cs:42-255 | Get after Create returns the user under the fresh Id; after Delete, Get returns null |
| `Scenarios.MessageLifecycle` | Messenger/Messenger.DataLayer.Sql/SourceCode/Message/MessageRepository.cs:47-236 | Get after Send returns the message with the fresh Id and the Date as the column rounded it, while the sent object keeps the exact Date; after Delete, Get returns null |
| `Scenarios.ChatLifecycle` | Messenger/Messenger.DataLayer.Sql/SourceCode/Chat/ChatRepository.cs:57-206 | Get after Create returns the same header and members; after Delete, Get returns null and no user's chat list shows the chat |
| `Scenarios.DeletedMemberBreaksChat` | Messenger/Messenger.DataLayer.Sql/SourceCode/User/UserRepository.cs:230-255 | after a chat member is deleted, Get and Delete on the chat and Send to it all throw a null dereference, and the chat stays stored |

## Left out

- SQL mechanics: connections, commands, parameter binding and reader loops. Tables are maps, and each repository call is one atomic update. So the email-uniqueness guarantees of `UserRepository.Create` and `UserRepository.Update` hold only for calls that do not overlap: the email COUNT runs on its own connection before the insert or update. The transactions in ChatRepository.cs:237-243 and MessageRepository.cs:389-409 therefore need no model.
- Logging (NLog) and `Utility.SqlExceptionHandler`: a storage failure (SqlException) is outside the model. Every call either completes or throws one of the modelled faults.
- The HTTP controllers, the WPF client and the older repositories directly under `Messenger.DataLayer.Sql`. Those repositories only issue SQL and call their validators; only their validators are modelled.
- `Guid.NewGuid()`, `DateTime.Now` and Guid-to-text formatting are parameters. Freshness of the new id is a precondition. Date is an integer timestamp.
- `MessageRepository.Send`, `Scenarios.MessageLifecycle`: the Date parameter is bound as SQL `datetime` (MessageRepository.cs:265), which rounds to 1/300 s. That rounding is the parameter `dateColumn`, not a formula. The model stores `dateColumn(now)` and leaves the object's Date at `now`, as the source does.
- The SQL text of the two duplicate-personal-chat lookups lives in `Properties.Resources`, which is not part of this model. The lookups are `Store.queries`. Only what `ChatValidator.AgreesWithTests` says of them is assumed, and only by the lemmas that name it.
- Database collation and padding: the email count compares emails exactly. SQL Server's default collation is case-insensitive, and its `=` ignores trailing spaces, so the source also refuses "a@b.c " when "a@b.c" is stored, where `UserValidator.FreshEmailAccepted` accepts it.
- `UserRepository.Create`, `UserRepository.Update`: a null user is excluded by the parameter type. The source dereferences it in its log line and in `user.Id`.
- Null elements inside the Members list a caller passes to `ChatRepository.Create` are not modelled: the newer validator dereferences `member.Id` on them (SourceCode/Chat/ChatRepositoryInputValidator.cs:73), and so does the older `ValidateCreate_AdminIsChatMember` (ChatRepositoryInputValidator.cs:64 directly under `Messenger.DataLayer.Sql`), which `LegacyChatValidator` cannot represent either. The null members `ChatRepository.Get` rebuilds for a deleted user are modelled, and throw in its log line. A member-count limit is not modelled either: the constants in ChatInputConstraints.cs:7-8 are never checked.
- `ChatRepository.Delete` assumes the database deletes the chat's ChatMembers rows with it. That cascade is in the schema, which is not part of this model. The chat's messages are left in place.
- `UserRepository.Delete` assumes the database neither cascades nor refuses the delete. The User row goes, and the user's ChatMembers links and authored messages stay. The schema is not part of this model. Under a cascade or a refusing foreign key, no chat could link a deleted user, and the null dereference in `ChatRepository.Get` could not happen.
- `UserRepository.GetById`, called at ChatRepository.cs:368, ChatRepositoryInputValidator.cs:73 and MessageRepositoryInputValidator.cs:61, is not part of this model. It is taken to behave as `UserRepository.Get` (UserRepository.cs:104): the stored user, or null.
- `ChatRepository.Get`, `ChatRepository.GetUserChats`: the member and chat queries have no ORDER BY. The model returns links in insertion order and visits chats in an arbitrary order.
- `MessageRepository.GetNewChatMessages`: the message count is taken as an unbounded count. SQL Server's `COUNT(*)` overflow above 2^31 − 1 rows is not modelled.
- The `IdToColumn`/`IdFromColumn` column mapping is stated once, in `Common`. The repositories store rows with Empty ids directly.
