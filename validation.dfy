/** The argument checks that make a handler fail with invalid-argument before it touches the
    store. */
module Validation {
  import opened Base
  import opened Identity

  datatype ErrorKind = InvalidArgument | NotFound | FailedPrecondition | Internal

  /** Shortest device id that registerDevice accepts. */
  const MinDeviceIdLength: nat := 10

  const MinNicknameLength: nat := 2
  const MaxNicknameLength: nat := 20

  /** registerDevice rejects a missing device id and one shorter than ten characters. */
  predicate DeviceIdAccepted(deviceId: Option<string>) {
    Truthy(deviceId) && |deviceId.value| >= MinDeviceIdLength
  }

  /** updateNickname needs both arguments and a nickname of 2 to 20 characters. */
  predicate NicknameAccepted(uid: Option<string>, nickname: Option<string>) {
    Truthy(uid) && Truthy(nickname)
    && MinNicknameLength <= |nickname.value| <= MaxNicknameLength
  }

  /** updateTokens needs a uid, an amount (zero included) and a type. */
  predicate TokenArgsAccepted(uid: Option<string>, amount: Option<int>, kind: Option<string>) {
    Truthy(uid) && amount.Some? && Truthy(kind)
  }

  /** No character of `s` is a slash. */
  predicate SlashFree(s: string) {
    s == "" || (s[0] != '/' && SlashFree(s[1..]))
  }

  /** An id that `collection(...).doc(id)` accepts as one document of that collection: not
      empty and without a slash. The store throws for the empty id and for an id whose
      slashes do not name a document; a handler that builds such a path fails as internal. */
  predicate ValidDocId(id: string) {
    id != "" && SlashFree(id)
  }

  /** SlashFree says what its name says. */
  lemma {:induction false} SlashFreeChars(s: string)
    ensures SlashFree(s) <==> forall i :: 0 <= i < |s| ==> s[i] != '/'
  {
    if s != "" {
      SlashFreeChars(s[1..]);
      assert forall i :: 1 <= i < |s| ==> s[i] == s[1..][i - 1];
    }
  }

  /** A concatenation is slash-free exactly when both parts are. */
  lemma {:induction false} SlashFreeConcat(a: string, b: string)
    ensures SlashFree(a + b) <==> SlashFree(a) && SlashFree(b)
  {
    if a != "" {
      assert (a + b)[1..] == a[1..] + b;
      SlashFreeConcat(a[1..], b);
    } else {
      assert a + b == b;
    }
  }

  /** Every generated uid can name a user document. */
  lemma GeneratedUidIsDocId(u: Uid)
    requires IsGeneratedUid(u)
    ensures ValidDocId(u)
  {
    SlashFreeChars(u);
  }

  /** The favorite document id `${uid}_${newsId}` of two non-empty ids can name a document
      exactly when both parts can. */
  lemma FavoriteKeyDocId(uid: Uid, newsId: string)
    requires uid != "" && newsId != ""
    ensures ValidDocId(FavoriteKey(uid, newsId)) <==> ValidDocId(uid) && ValidDocId(newsId)
  {
    SlashFreeConcat(uid, "_");
    SlashFreeConcat(uid + "_", newsId);
  }

  /** The nickname registerDevice gives a new account would itself pass updateNickname's
      check. */
  lemma GeneratedNicknameAccepted(uid: Option<string>, clockMillis: nat)
    requires Truthy(uid)
    ensures NicknameAccepted(uid, Some(GeneratedNickname(clockMillis)))
  {
    GeneratedNicknameLength(clockMillis);
  }
}
