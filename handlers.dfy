/** The callable handlers and the comment trigger, as methods of a store that holds the
    collections they touch. Each call is one sequential step. */
module Handlers {
  import opened Base
  import opened Identity
  import opened Records
  import opened Validation
  import opened Ledger
  import opened VerifyUid
  import opened Favorites
  import opened Discussions

  datatype Registration = Registration(uid: Uid, isNewUser: bool, nickname: string, tokenCount: int)

  datatype Verification =
    | Accepted(nickname: string, tokenCount: int, favoriteCount: int, commentCount: int)
    | Rejected(reason: Reason)

  datatype FavoriteAction = Added | Removed

  /** The uids of the users registered with device hash `h`. */
  function HoldersOf(users: map<Uid, User>, h: string): set<Uid> {
    set u | u in users && users[u].deviceHash == h
  }

  /** The account registerDevice creates for an unknown device. */
  function NewUser(deviceHash: string, platform: string, appVersion: string, now: nat): (u: User)
    ensures u.tokenCount == WelcomeBonus && u.favoriteCount == 0 && u.commentCount == 0
    ensures u.status == ActiveStatus && u.deviceHash == deviceHash
  {
    User(deviceHash, GeneratedNickname(now), WelcomeBonus, 0, 0, ActiveStatus, now, now,
         platform, appVersion, None, None, None)
  }

  /** Every user key is a generated uid and no two users share a device hash. */
  ghost predicate UsersValid(users: map<Uid, User>) {
    && (forall u :: u in users ==> IsGeneratedUid(u))
    && (forall u, v :: u in users && v in users && u != v ==> users[u].deviceHash != users[v].deviceHash)
  }

  /** Each user has a history, chained and ending at their tokenCount. */
  ghost predicate LedgersValid(users: map<Uid, User>, tokenHistory: map<Uid, seq<HistoryEntry>>) {
    && tokenHistory.Keys == users.Keys
    && (forall u :: u in users ==> Consistent(users[u].tokenCount, tokenHistory[u]))
  }

  /** Each favorite belongs to a user and sits under its own key, and each user's
      favoriteCount is the number of their favorites. */
  ghost predicate FavoritesValid(users: map<Uid, User>, favorites: map<string, Favorite>) {
    && WellKeyed(favorites)
    && (forall k :: k in favorites ==> favorites[k].uid in users)
    && (forall u :: u in users ==> users[u].favoriteCount == |FavoritesOf(favorites, u)|)
  }

  ghost predicate DiscussionsValid(discussions: map<string, Discussion>) {
    forall d :: d in discussions ==> WellCounted(discussions[d])
  }

  /** The invariant of the whole store. */
  ghost predicate StoreValid(
    users: map<Uid, User>, tokenHistory: map<Uid, seq<HistoryEntry>>, favorites: map<string, Favorite>,
    discussions: map<string, Discussion>)
  {
    && UsersValid(users)
    && LedgersValid(users, tokenHistory)
    && FavoritesValid(users, favorites)
    && DiscussionsValid(discussions)
  }

  /** Rewriting one user's fields other than the device hash, balance and favoriteCount keeps
      every invariant about users. */
  lemma RewriteUser(
    users: map<Uid, User>, tokenHistory: map<Uid, seq<HistoryEntry>>, favorites: map<string, Favorite>,
    u: Uid, w: User)
    requires UsersValid(users) && LedgersValid(users, tokenHistory) && FavoritesValid(users, favorites)
    requires u in users && w.deviceHash == users[u].deviceHash
    requires w.tokenCount == users[u].tokenCount && w.favoriteCount == users[u].favoriteCount
    ensures UsersValid(users[u := w]) && LedgersValid(users[u := w], tokenHistory)
    ensures FavoritesValid(users[u := w], favorites)
  {
    RewriteUserUsers(users, u, w);
    RewriteUserLedgers(users, tokenHistory, u, w);
    RewriteUserFavorites(users, favorites, u, w);
  }

  lemma RewriteUserUsers(users: map<Uid, User>, u: Uid, w: User)
    requires UsersValid(users)
    requires u in users && w.deviceHash == users[u].deviceHash
    ensures UsersValid(users[u := w])
  {
  }

  lemma RewriteUserLedgers(users: map<Uid, User>, tokenHistory: map<Uid, seq<HistoryEntry>>, u: Uid, w: User)
    requires LedgersValid(users, tokenHistory)
    requires u in users && w.tokenCount == users[u].tokenCount
    ensures LedgersValid(users[u := w], tokenHistory)
  {
  }

  lemma RewriteUserFavorites(users: map<Uid, User>, favorites: map<string, Favorite>, u: Uid, w: User)
    requires FavoritesValid(users, favorites)
    requires u in users && w.favoriteCount == users[u].favoriteCount
    ensures FavoritesValid(users[u := w], favorites)
  {
  }

  /** Setting one user's balance to a value their extended history ends at keeps every
      invariant about users. */
  lemma CreditUser(
    users: map<Uid, User>, tokenHistory: map<Uid, seq<HistoryEntry>>, favorites: map<string, Favorite>,
    u: Uid, balance: int, entry: HistoryEntry)
    requires UsersValid(users) && LedgersValid(users, tokenHistory) && FavoritesValid(users, favorites)
    requires u in users && Consistent(balance, tokenHistory[u] + [entry])
    ensures var users' := users[u := users[u].(tokenCount := balance)];
      && UsersValid(users') && LedgersValid(users', tokenHistory[u := tokenHistory[u] + [entry]])
      && FavoritesValid(users', favorites)
  {
    var w := users[u].(tokenCount := balance);
    RewriteUserUsers(users, u, w);
    CreditLedgers(users, tokenHistory, u, w, tokenHistory[u] + [entry]);
    RewriteUserFavorites(users, favorites, u, w);
  }

  lemma CreditLedgers(
    users: map<Uid, User>, tokenHistory: map<Uid, seq<HistoryEntry>>, u: Uid, w: User, h: seq<HistoryEntry>)
    requires LedgersValid(users, tokenHistory)
    requires u in users && Consistent(w.tokenCount, h)
    ensures LedgersValid(users[u := w], tokenHistory[u := h])
  {
    var users', tokenHistory' := users[u := w], tokenHistory[u := h];
    assert tokenHistory'.Keys == users'.Keys;
    forall v | v in users'
      ensures Consistent(users'[v].tokenCount, tokenHistory'[v])
    {
      if v != u {
        assert users'[v] == users[v] && tokenHistory'[v] == tokenHistory[v];
      }
    }
  }

  /** Adding an account for a device hash nobody holds, with a consistent ledger and no
      favorites, keeps every invariant about users. */
  lemma AddUser(
    users: map<Uid, User>, tokenHistory: map<Uid, seq<HistoryEntry>>, favorites: map<string, Favorite>,
    u: Uid, w: User, h: seq<HistoryEntry>)
    requires UsersValid(users) && LedgersValid(users, tokenHistory) && FavoritesValid(users, favorites)
    requires IsGeneratedUid(u) && u !in users && HoldersOf(users, w.deviceHash) == {}
    requires Consistent(w.tokenCount, h) && w.favoriteCount == 0
    ensures UsersValid(users[u := w]) && LedgersValid(users[u := w], tokenHistory[u := h])
    ensures FavoritesValid(users[u := w], favorites)
  {
    AddUserUsers(users, u, w);
    AddUserLedgers(users, tokenHistory, u, w, h);
    AddUserFavorites(users, favorites, u, w);
  }

  lemma AddUserUsers(users: map<Uid, User>, u: Uid, w: User)
    requires UsersValid(users)
    requires IsGeneratedUid(u) && u !in users && HoldersOf(users, w.deviceHash) == {}
    ensures UsersValid(users[u := w])
  {
    forall v | v in users ensures users[v].deviceHash != w.deviceHash {
      assert v !in HoldersOf(users, w.deviceHash);
    }
  }

  lemma AddUserLedgers(
    users: map<Uid, User>, tokenHistory: map<Uid, seq<HistoryEntry>>, u: Uid, w: User, h: seq<HistoryEntry>)
    requires LedgersValid(users, tokenHistory)
    requires u !in users && Consistent(w.tokenCount, h)
    ensures LedgersValid(users[u := w], tokenHistory[u := h])
  {
    assert tokenHistory[u := h].Keys == users[u := w].Keys;
  }

  lemma AddUserFavorites(users: map<Uid, User>, favorites: map<string, Favorite>, u: Uid, w: User)
    requires FavoritesValid(users, favorites)
    requires u !in users && w.favoriteCount == 0
    ensures FavoritesValid(users[u := w], favorites)
  {
    assert FavoritesOf(favorites, u) == {};
  }

  /** A toggle by an existing user, with their favoriteCount moved by ToggleDelta, keeps every
      invariant about users. */
  lemma ToggleKeepsValid(
    users: map<Uid, User>, tokenHistory: map<Uid, seq<HistoryEntry>>, favorites: map<string, Favorite>,
    u: Uid, newsId: string, f: Favorite)
    requires UsersValid(users) && LedgersValid(users, tokenHistory) && FavoritesValid(users, favorites)
    requires u in users && f.uid == u && f.newsId == newsId
    ensures var k := FavoriteKey(u, newsId);
      var users' := users[u := users[u].(favoriteCount := users[u].favoriteCount + ToggleDelta(favorites, k))];
      && UsersValid(users') && LedgersValid(users', tokenHistory)
      && FavoritesValid(users', Toggled(favorites, k, f))
  {
    var k := FavoriteKey(u, newsId);
    var w := users[u].(favoriteCount := users[u].favoriteCount + ToggleDelta(favorites, k));
    RewriteUserUsers(users, u, w);
    RewriteUserLedgers(users, tokenHistory, u, w);
    ToggleFavoritesValid(users, favorites, u, newsId, f);
  }

  lemma ToggleFavoritesValid(users: map<Uid, User>, favorites: map<string, Favorite>, u: Uid, newsId: string, f: Favorite)
    requires UsersValid(users) && FavoritesValid(users, favorites)
    requires u in users && f.uid == u && f.newsId == newsId
    ensures var k := FavoriteKey(u, newsId);
      var users' := users[u := users[u].(favoriteCount := users[u].favoriteCount + ToggleDelta(favorites, k))];
      FavoritesValid(users', Toggled(favorites, k, f))
  {
    var k := FavoriteKey(u, newsId);
    ToggleKeepsWellKeyed(favorites, u, newsId, f);
    ToggleCountOwner(favorites, u, newsId, f);
    forall v | v in users && v != u
      ensures FavoritesOf(Toggled(favorites, k, f), v) == FavoritesOf(favorites, v)
    {
      ToggleCountOthers(favorites, u, newsId, f, v);
    }
  }

  /** A comment on an existing discussion keeps every discussion's participant count. */
  lemma CommentKeepsDiscussionsValid(discussions: map<string, Discussion>, id: string, uid: Uid, now: nat)
    requires DiscussionsValid(discussions) && id in discussions
    ensures DiscussionsValid(discussions[id := Commented(discussions[id], uid, now)])
  {
    CommentedKeepsCount(discussions[id], uid, now);
  }

  class Store {
    /** The device hash: HMAC-SHA256 of the device id under the server secret, supplied when
        the store is set up. */
    const hash: string -> string

    var users: map<Uid, User>
    var tokenHistory: map<Uid, seq<HistoryEntry>>
    var favorites: map<string, Favorite>
    var discussions: map<string, Discussion>
    var participated: map<(Uid, string), Participation>

    /** The store invariant the handlers keep. */
    ghost predicate Valid()
      reads this
    {
      StoreValid(users, tokenHistory, favorites, discussions)
    }

    /** An empty store over the given discussions (which other clients create). */
    constructor (hash: string -> string, discussions: map<string, Discussion>)
      requires DiscussionsValid(discussions)
      ensures Valid()
      ensures this.hash == hash && this.discussions == discussions
      ensures users == map[] && tokenHistory == map[] && favorites == map[] && participated == map[]
    {
      this.hash := hash;
      this.discussions := discussions;
      users, tokenHistory, favorites, participated := map[], map[], map[], map[];
    }

    /** Writes the documents a handler computed. Every handler ends here, so the store
        invariant is checked once, against the written state. */
    method Commit(
      users': map<Uid, User>, tokenHistory': map<Uid, seq<HistoryEntry>>, favorites': map<string, Favorite>,
      discussions': map<string, Discussion>, participated': map<(Uid, string), Participation>)
      requires StoreValid(users', tokenHistory', favorites', discussions')
      modifies this`users, this`tokenHistory, this`favorites, this`discussions, this`participated
      ensures Valid()
      ensures users == users' && tokenHistory == tokenHistory' && favorites == favorites'
      ensures discussions == discussions' && participated == participated'
    {
      users, tokenHistory, favorites, discussions, participated := users', tokenHistory', favorites', discussions', participated';
    }

    /** registerDevice: find the account of a device by its hash, or create one. */
    method RegisterDevice(deviceId: Option<string>, platform: string, appVersion: string, now: nat, freshUid: Uid)
      returns (r: Result<Registration, ErrorKind>)
      requires Valid()
      requires IsGeneratedUid(freshUid) && freshUid !in users
      modifies this`users, this`tokenHistory, this`favorites, this`discussions, this`participated
      ensures Valid()
      ensures favorites == old(favorites) && discussions == old(discussions) && participated == old(participated)
      ensures !DeviceIdAccepted(deviceId) ==>
        r == Failure(InvalidArgument) && users == old(users) && tokenHistory == old(tokenHistory)
      ensures DeviceIdAccepted(deviceId) ==>
        && r.Ok? && r.value.uid in users
        && users[r.value.uid].deviceHash == hash(deviceId.value)
        && (r.value.isNewUser <==> HoldersOf(old(users), hash(deviceId.value)) == {})
      // A known device: its one account, with only the login fields refreshed.
      ensures r.Ok? && !r.value.isNewUser ==>
        var u := r.value.uid;
        && HoldersOf(old(users), hash(deviceId.value)) == {u}
        && r.value.nickname == old(users)[u].nickname
        && r.value.tokenCount == old(users)[u].tokenCount
        && users == old(users)[u := old(users)[u].(
             lastLoginAt := now, lastPlatform := Some(platform), lastAppVersion := Some(appVersion))]
        && tokenHistory == old(tokenHistory)
      // An unknown device: one new account holding the welcome bonus.
      ensures r.Ok? && r.value.isNewUser ==>
        && r.value == Registration(freshUid, true, GeneratedNickname(now), WelcomeBonus)
        && users == old(users)[freshUid := NewUser(hash(deviceId.value), platform, appVersion, now)]
        && tokenHistory == old(tokenHistory)[freshUid := WelcomeHistory(now)]
    {
      if !DeviceIdAccepted(deviceId) {
        return Failure(InvalidArgument);
      }
      var h := hash(deviceId.value);
      if u :| u in users && users[u].deviceHash == h {
        assert HoldersOf(users, h) == {u};
        var user := users[u];
        var w := user.(lastLoginAt := now, lastPlatform := Some(platform), lastAppVersion := Some(appVersion));
        RewriteUser(users, tokenHistory, favorites, u, w);
        Commit(users[u := w], tokenHistory, favorites, discussions, participated);
        return Ok(Registration(u, false, user.nickname, user.tokenCount));
      }
      assert HoldersOf(users, h) == {};
      var w := NewUser(h, platform, appVersion, now);
      AddUser(users, tokenHistory, favorites, freshUid, w, WelcomeHistory(now));
      Commit(users[freshUid := w], tokenHistory[freshUid := WelcomeHistory(now)], favorites, discussions, participated);
      r := Ok(Registration(freshUid, true, GeneratedNickname(now), WelcomeBonus));
    }

    /** verifyUID: check that a stored uid still belongs to this device and is active. */
    method VerifyUID(uid: Option<string>, deviceId: Option<string>, now: nat)
      returns (r: Result<Verification, ErrorKind>)
      requires Valid()
      modifies this`users, this`tokenHistory, this`favorites, this`discussions, this`participated
      ensures Valid()
      ensures tokenHistory == old(tokenHistory) && favorites == old(favorites)
      ensures discussions == old(discussions) && participated == old(participated)
      ensures !(Truthy(uid) && Truthy(deviceId)) ==> r == Failure(InvalidArgument) && users == old(users)
      ensures Truthy(uid) && Truthy(deviceId) && !ValidDocId(uid.value) ==>
        r == Failure(Internal) && users == old(users)
      ensures Truthy(uid) && Truthy(deviceId) && ValidDocId(uid.value) ==>
        var rejection := Rejection(Lookup(old(users), uid.value), hash(deviceId.value));
        && (rejection.Some? ==> r == Ok(Rejected(rejection.value)) && users == old(users))
        && (rejection.None? ==>
              var user := old(users)[uid.value];
              && r == Ok(Accepted(user.nickname, user.tokenCount, user.favoriteCount, user.commentCount))
              && users == old(users)[uid.value := user.(lastLoginAt := now)])
    {
      if !(Truthy(uid) && Truthy(deviceId)) {
        return Failure(InvalidArgument);
      }
      if !ValidDocId(uid.value) {
        return Failure(Internal);
      }
      var rejection := Rejection(Lookup(users, uid.value), hash(deviceId.value));
      if rejection.Some? {
        return Ok(Rejected(rejection.value));
      }
      var user := users[uid.value];
      RewriteUser(users, tokenHistory, favorites, uid.value, user.(lastLoginAt := now));
      Commit(users[uid.value := user.(lastLoginAt := now)], tokenHistory, favorites, discussions, participated);
      r := Ok(Accepted(user.nickname, user.tokenCount, user.favoriteCount, user.commentCount));
    }

    /** updateTokens: add a signed amount to a balance that may not go below zero, and record
        the change in the history. The not-found and failed-precondition errors reach the
        caller as they are. */
    method UpdateTokens(uid: Option<string>, amount: Option<int>, kind: Option<string>, description: Option<string>, now: nat)
      returns (r: Result<int, ErrorKind>)
      requires Valid()
      modifies this`users, this`tokenHistory, this`favorites, this`discussions, this`participated
      ensures Valid()
      ensures favorites == old(favorites) && discussions == old(discussions) && participated == old(participated)
      ensures r.Failure? ==> users == old(users) && tokenHistory == old(tokenHistory)
      ensures !TokenArgsAccepted(uid, amount, kind) ==> r == Failure(InvalidArgument)
      ensures TokenArgsAccepted(uid, amount, kind) && !ValidDocId(uid.value) ==> r == Failure(Internal)
      ensures TokenArgsAccepted(uid, amount, kind) && ValidDocId(uid.value) && uid.value !in old(users) ==>
        r == Failure(NotFound)
      ensures TokenArgsAccepted(uid, amount, kind) && ValidDocId(uid.value) && uid.value in old(users) ==>
        var u, before := uid.value, old(users)[uid.value];
        match NewBalance(before.tokenCount, amount.value)
        case None => r == Failure(FailedPrecondition)
        case Some(balance) =>
          && r == Ok(balance)
          && users == old(users)[u := before.(tokenCount := balance)]
          && tokenHistory == old(tokenHistory)[u := old(tokenHistory)[u]
               + [HistoryEntry(kind.value, amount.value, balance, OrElse(description, ""), now)]]
    {
      if !TokenArgsAccepted(uid, amount, kind) {
        return Failure(InvalidArgument);
      }
      var u := uid.value;
      if !ValidDocId(u) {
        return Failure(Internal);
      }
      if u !in users {
        return Failure(NotFound);
      }
      var user := users[u];
      var next := NewBalance(user.tokenCount, amount.value);
      if next.None? {
        return Failure(FailedPrecondition);
      }
      var balance := next.value;
      var entry := HistoryEntry(kind.value, amount.value, balance, OrElse(description, ""), now);
      AppendKeepsConsistent(user.tokenCount, tokenHistory[u], amount.value, kind.value, entry.description, now);
      CreditUser(users, tokenHistory, favorites, u, balance, entry);
      Commit(users[u := user.(tokenCount := balance)], tokenHistory[u := tokenHistory[u] + [entry]],
        favorites, discussions, participated);
      r := Ok(balance);
    }

    /** toggleFavorite: remove the user's favorite for a news item if present, add it
        otherwise, and move the user's favoriteCount by one in the same direction. The update
        of a missing user document aborts the transaction. */
    method ToggleFavorite(uid: Option<string>, newsId: Option<string>, newsData: string, now: nat)
      returns (r: Result<FavoriteAction, ErrorKind>)
      requires Valid()
      modifies this`users, this`tokenHistory, this`favorites, this`discussions, this`participated
      ensures Valid()
      ensures tokenHistory == old(tokenHistory) && discussions == old(discussions) && participated == old(participated)
      ensures !(Truthy(uid) && Truthy(newsId)) ==>
        r == Failure(InvalidArgument) && users == old(users) && favorites == old(favorites)
      ensures (Truthy(uid) && Truthy(newsId)
               && !(ValidDocId(uid.value) && ValidDocId(newsId.value) && uid.value in old(users))) ==>
        r == Failure(Internal) && users == old(users) && favorites == old(favorites)
      ensures (Truthy(uid) && Truthy(newsId) && ValidDocId(uid.value) && ValidDocId(newsId.value)
               && uid.value in old(users)) ==>
        var u, k := uid.value, FavoriteKey(uid.value, newsId.value);
        && r == Ok(if k in old(favorites) then Removed else Added)
        && favorites == Toggled(old(favorites), k, Favorite(u, newsId.value, newsData, now))
        && users == old(users)[u := old(users)[u].(
             favoriteCount := old(users)[u].favoriteCount + ToggleDelta(old(favorites), k))]
    {
      if !(Truthy(uid) && Truthy(newsId)) {
        return Failure(InvalidArgument);
      }
      r := ToggleAt(uid.value, newsId.value, newsData, now);
    }

    /** toggleFavorite past its argument check: building the favorite document reference
        throws for an id with a slash, and the transaction fails on a missing user document;
        both surface as internal. */
    method ToggleAt(uid: string, newsId: string, newsData: string, now: nat)
      returns (r: Result<FavoriteAction, ErrorKind>)
      requires Valid() && uid != "" && newsId != ""
      modifies this`users, this`tokenHistory, this`favorites, this`discussions, this`participated
      ensures Valid()
      ensures tokenHistory == old(tokenHistory) && discussions == old(discussions) && participated == old(participated)
      ensures !(ValidDocId(uid) && ValidDocId(newsId) && uid in old(users)) ==>
        r == Failure(Internal) && users == old(users) && favorites == old(favorites)
      ensures ValidDocId(uid) && ValidDocId(newsId) && uid in old(users) ==>
        var k := FavoriteKey(uid, newsId);
        && r == Ok(if k in old(favorites) then Removed else Added)
        && favorites == Toggled(old(favorites), k, Favorite(uid, newsId, newsData, now))
        && users == old(users)[uid := old(users)[uid].(
             favoriteCount := old(users)[uid].favoriteCount + ToggleDelta(old(favorites), k))]
    {
      FavoriteKeyDocId(uid, newsId);
      if !ValidDocId(FavoriteKey(uid, newsId)) || uid !in users {
        return Failure(Internal);
      }
      var action := ToggleOwn(uid, newsId, newsData, now);
      r := Ok(action);
    }

    /** The transaction of toggleFavorite for an existing user: delete the favorite and
        decrement favoriteCount, or create it and increment favoriteCount. */
    method ToggleOwn(u: Uid, newsId: string, newsData: string, now: nat) returns (a: FavoriteAction)
      requires Valid() && u in users
      modifies this`users, this`tokenHistory, this`favorites, this`discussions, this`participated
      ensures Valid()
      ensures tokenHistory == old(tokenHistory) && discussions == old(discussions) && participated == old(participated)
      ensures var k := FavoriteKey(u, newsId);
        && a == (if k in old(favorites) then Removed else Added)
        && favorites == Toggled(old(favorites), k, Favorite(u, newsId, newsData, now))
        && users == old(users)[u := old(users)[u].(
             favoriteCount := old(users)[u].favoriteCount + ToggleDelta(old(favorites), k))]
    {
      var k := FavoriteKey(u, newsId);
      var f := Favorite(u, newsId, newsData, now);
      ToggleKeepsValid(users, tokenHistory, favorites, u, newsId, f);
      a := if k in favorites then Removed else Added;
      Commit(users[u := users[u].(favoriteCount := users[u].favoriteCount + ToggleDelta(favorites, k))],
        tokenHistory, Toggled(favorites, k, f), discussions, participated);
    }

    /** updateNickname: set a nickname of 2 to 20 characters. The update of a missing user
        document fails as an internal error. */
    method UpdateNickname(uid: Option<string>, nickname: Option<string>, now: nat)
      returns (r: Result<string, ErrorKind>)
      requires Valid()
      modifies this`users, this`tokenHistory, this`favorites, this`discussions, this`participated
      ensures Valid()
      ensures tokenHistory == old(tokenHistory) && favorites == old(favorites)
      ensures discussions == old(discussions) && participated == old(participated)
      ensures !NicknameAccepted(uid, nickname) ==> r == Failure(InvalidArgument) && users == old(users)
      ensures NicknameAccepted(uid, nickname) && uid.value !in old(users) ==>
        r == Failure(Internal) && users == old(users)
      ensures NicknameAccepted(uid, nickname) && uid.value in old(users) ==>
        && r == Ok(nickname.value)
        && users == old(users)[uid.value := old(users)[uid.value].(nickname := nickname.value, updatedAt := Some(now))]
    {
      if !NicknameAccepted(uid, nickname) {
        return Failure(InvalidArgument);
      }
      var u := uid.value;
      if u !in users {
        return Failure(Internal);
      }
      var w := users[u].(nickname := nickname.value, updatedAt := Some(now));
      RewriteUser(users, tokenHistory, favorites, u, w);
      Commit(users[u := w], tokenHistory, favorites, discussions, participated);
      r := Ok(nickname.value);
    }

    /** onCommentCreated, with its reads issued before its writes: bump the author's
        commentCount if the author exists, merge the participation record, and if the
        discussion exists bump its commentCount and add the author as a participant once. A
        uid or discussion id that cannot name a document makes the transaction throw, and the
        swallowed error leaves everything as it was. */
    method OnCommentCreated(discussionId: string, uid: Uid, newsUrl: string, now: nat)
      requires Valid()
      modifies this`users, this`tokenHistory, this`favorites, this`discussions, this`participated
      ensures Valid()
      ensures tokenHistory == old(tokenHistory) && favorites == old(favorites)
      ensures !(ValidDocId(uid) && ValidDocId(discussionId)) ==>
        users == old(users) && participated == old(participated) && discussions == old(discussions)
      ensures ValidDocId(uid) && ValidDocId(discussionId) ==>
        && users == (if uid in old(users)
             then old(users)[uid := old(users)[uid].(commentCount := old(users)[uid].commentCount + 1)]
             else old(users))
        && participated == old(participated)[(uid, discussionId) :=
             Participated(old(participated), uid, discussionId, newsUrl, now)]
        && discussions == (if discussionId in old(discussions)
             then old(discussions)[discussionId := Commented(old(discussions)[discussionId], uid, now)]
             else old(discussions))
    {
      if !(ValidDocId(uid) && ValidDocId(discussionId)) {
        return;
      }
      var users', discussions' := users, discussions;
      if uid in users {
        var w := users[uid].(commentCount := users[uid].commentCount + 1);
        RewriteUser(users, tokenHistory, favorites, uid, w);
        users' := users[uid := w];
      }
      if discussionId in discussions {
        CommentKeepsDiscussionsValid(discussions, discussionId, uid, now);
        discussions' := discussions[discussionId := Commented(discussions[discussionId], uid, now)];
      }
      Commit(users', tokenHistory, favorites, discussions',
        participated[(uid, discussionId) := Participated(participated, uid, discussionId, newsUrl, now)]);
    }
  }
}
