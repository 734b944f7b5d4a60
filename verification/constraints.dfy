/** Length and size bounds the validators enforce (inclusive on both ends). */
module Constraints {

  // User fields
  const MinUserNameLength := 1
  const MaxUserNameLength := 25
  const MinUserLastNameLength := 1
  const MaxUserLastNameLength := 25
  const MinUserEmailLength := 1
  const MaxUserEmailLength := 254
  const MinUserPasswordLength := 1
  const MaxUserPasswordLength := 25

  // Chat name (the member-count bounds exist beside these but no code checks them)
  const MinChatNameLength := 1
  const MaxChatNameLength := 50

  // Message text
  const MinMessageTextLength := 1
  const MaxMessageTextLength := 7500

  // Attachment: file size in bytes (at most 100 MB) and file-type tag length
  const MinFileSize := 1
  const MaxFileSize := 104857600
  const MinFileTypeLength := 1
  const MaxFileTypeLength := 25

  // Older snapshot only: inline user avatar size in bytes (2 MB) and the default group name
  const MaxImageSize := 2097152
  const DefaultChatName: string := "New Chat"

  /**
   * C#'s String.Length, which every text bound is checked against: UTF-16 code units,
   * so a character outside the Basic Multilingual Plane counts twice.
   */
  function Utf16Length(s: string): (n: nat)
    ensures |s| <= n <= 2 * |s|
  {
    if s == [] then 0 else Utf16Units(s[0]) + Utf16Length(s[1..])
  }

  /** Code units of one character: 2 above U+FFFF (a surrogate pair), else 1. */
  function Utf16Units(c: char): nat
  {
    if c as int > 0xFFFF then 2 else 1
  }

  /** Text made only of Basic Multilingual Plane characters has as many code units as characters. */
  lemma {:induction false} BmpUtf16Length(s: string)
    requires forall i :: 0 <= i < |s| ==> s[i] as int <= 0xFFFF
    ensures Utf16Length(s) == |s|
    decreases |s|
  {
    if s != [] {
      BmpUtf16Length(s[1..]);
    }
  }

  /** Text made only of characters outside the Basic Multilingual Plane has twice as many code units. */
  lemma {:induction false} AstralUtf16Length(s: string)
    requires forall i :: 0 <= i < |s| ==> s[i] as int > 0xFFFF
    ensures Utf16Length(s) == 2 * |s|
    decreases |s|
  {
    if s != [] {
      AstralUtf16Length(s[1..]);
    }
  }

  /** True when n lies in [lo, hi]. */
  predicate InRange(n: int, lo: int, hi: int)
  {
    lo <= n <= hi
  }
}
