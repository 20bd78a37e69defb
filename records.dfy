/** The documents the handlers read and write. A numeric field that a document may lack is
    read with `|| 0` and bumped with `FieldValue.increment`, both of which treat a missing
    field as 0, so every such count is an `int` whose value 0 also stands for "absent".
    Timestamps are the clock value passed to the handler. */
module Records {
  import opened Base
  import opened Identity

  /** A document of the `users` collection. `lastPlatform`, `lastAppVersion` and `updatedAt`
      are written only by later calls, so a fresh account lacks them. */
  datatype User = User(
    deviceHash: string,
    nickname: string,
    tokenCount: int,
    favoriteCount: int,
    commentCount: int,
    status: string,
    createdAt: nat,
    lastLoginAt: nat,
    platform: string,
    appVersion: string,
    lastPlatform: Option<string>,
    lastAppVersion: Option<string>,
    updatedAt: Option<nat>)

  /** A document of `users/{uid}/tokenHistory`. */
  datatype HistoryEntry = HistoryEntry(
    kind: string,
    amount: int,
    balance: int,
    description: string,
    createdAt: nat)

  /** A document of the `favorites` collection; `newsData` is the client's payload, kept
      opaque. */
  datatype Favorite = Favorite(uid: Uid, newsId: string, newsData: string, createdAt: nat)

  /** A document of the `discussions` collection, restricted to the fields the comment
      trigger touches. A missing `participants` array reads as empty. */
  datatype Discussion = Discussion(
    participants: seq<Uid>,
    participantCount: int,
    commentCount: int,
    lastActivityAt: Option<nat>)

  /** A document of `users/{uid}/participatedDiscussions/{discussionId}`. */
  datatype Participation = Participation(
    discussionId: string,
    newsUrl: string,
    lastCommentAt: nat,
    commentCount: int)

  const ActiveStatus: string := "active"
  const WelcomeBonus: int := 100
  const WelcomeKind: string := "welcome_bonus"
  /** "가입 축하 토큰" ("sign-up celebration tokens"). */
  const WelcomeDescription: string := "\U{AC00}\U{C785} \U{CD95}\U{D558} \U{D1A0}\U{D070}"
}
