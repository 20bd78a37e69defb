/** Properties of handler calls in sequence, proved from the handlers' contracts alone. */
module Scenarios {
  import opened Base
  import opened Identity
  import opened Records
  import opened Validation
  import opened Favorites
  import opened Handlers

  /** One registration of a well-formed device id: it always succeeds, creates an account
      exactly when no account holds the device's hash, and leaves the returned account with
      that hash and the returned balance. */
  method RegisterOnce(s: Store, deviceId: string, platform: string, appVersion: string, now: nat, uid: Uid)
    returns (r: Result<Registration, ErrorKind>)
    requires s.Valid() && |deviceId| >= MinDeviceIdLength
    requires IsGeneratedUid(uid) && uid !in s.users
    modifies s
    ensures s.Valid() && r.Ok? && r.value.uid in s.users
    ensures s.users[r.value.uid].deviceHash == s.hash(deviceId)
    ensures s.users[r.value.uid].tokenCount == r.value.tokenCount
    ensures s.users.Keys == old(s.users).Keys + {r.value.uid}
    ensures r.value.isNewUser ==> r.value.uid == uid
    ensures !r.value.isNewUser ==>
      HoldersOf(old(s.users), s.hash(deviceId)) == {r.value.uid}
      && r.value.uid in old(s.users) && r.value.tokenCount == old(s.users)[r.value.uid].tokenCount
    ensures HoldersOf(old(s.users), s.hash(deviceId)) != {} ==> !r.value.isNewUser
  {
    ghost var users0 := s.users;
    r := s.RegisterDevice(Some(deviceId), platform, appVersion, now, uid);
    ghost var u := r.value.uid;
    if r.value.isNewUser {
      assert s.users == users0[uid := NewUser(s.hash(deviceId), platform, appVersion, now)];
    } else {
      assert s.users == users0[u := users0[u].(
        lastLoginAt := now, lastPlatform := Some(platform), lastAppVersion := Some(appVersion))];
    }
  }

  /** Registering the same device twice yields one account: the second call finds the uid
      the first returned, reports it as not new, and creates nothing. */
  method RegisterDeviceTwice(
    s: Store, deviceId: string, platform: string, appVersion: string, t1: nat, t2: nat, uid1: Uid, uid2: Uid)
    returns (r1: Result<Registration, ErrorKind>, r2: Result<Registration, ErrorKind>)
    requires s.Valid() && |deviceId| >= MinDeviceIdLength
    requires IsGeneratedUid(uid1) && IsGeneratedUid(uid2) && uid1 != uid2
    requires uid1 !in s.users && uid2 !in s.users
    modifies s
    ensures s.Valid()
    ensures r1.Ok? && r2.Ok? && r2.value.uid == r1.value.uid && !r2.value.isNewUser
    ensures r2.value.tokenCount == r1.value.tokenCount
    ensures s.users.Keys == old(s.users).Keys + {r1.value.uid}
  {
    r1 := RegisterOnce(s, deviceId, platform, appVersion, t1, uid1);
    ghost var users1, u, h := s.users, r1.value.uid, s.hash(deviceId);
    assert u in HoldersOf(users1, h);
    r2 := RegisterOnce(s, deviceId, platform, appVersion, t2, uid2);
    assert u in {r2.value.uid};
  }

  /** `users` with one user's favoriteCount moved by `d`. */
  function Recount(users: map<Uid, User>, u: Uid, d: int): map<Uid, User>
    requires u in users
  {
    users[u := users[u].(favoriteCount := users[u].favoriteCount + d)]
  }

  /** Moving one user's favoriteCount by two deltas that cancel gives back the same users. */
  lemma UndoCount(users: map<Uid, User>, u: Uid, d1: int, d2: int)
    requires u in users && d1 + d2 == 0
    ensures Recount(Recount(users, u, d1), u, d2) == users
  {
  }

  /** One toggle of a favorite by an existing user, with a news id that can name a document:
      it always succeeds and performs the toggle. */
  method ToggleExisting(s: Store, uid: Uid, newsId: string, newsData: string, now: nat)
    returns (a: Result<FavoriteAction, ErrorKind>)
    requires s.Valid() && uid in s.users && ValidDocId(newsId)
    modifies s
    ensures s.Valid() && a.Ok?
    ensures var k := FavoriteKey(uid, newsId);
      && a.value == (if k in old(s.favorites) then Removed else Added)
      && s.favorites == Toggled(old(s.favorites), k, Favorite(uid, newsId, newsData, now))
      && s.users == Recount(old(s.users), uid, ToggleDelta(old(s.favorites), k))
  {
    GeneratedUidIsDocId(uid);
    ghost var users0, favs0 := s.users, s.favorites;
    a := s.ToggleFavorite(Some(uid), Some(newsId), newsData, now);
    assert s.users == users0[uid := users0[uid].(
      favoriteCount := users0[uid].favoriteCount + ToggleDelta(favs0, FavoriteKey(uid, newsId)))];
  }

  /** Toggling the same favorite twice restores the favorite keys and leaves every user
      document, favoriteCount included, as it was. */
  method ToggleFavoriteTwice(s: Store, uid: Uid, newsId: string, d1: string, d2: string, t1: nat, t2: nat)
    returns (a1: Result<FavoriteAction, ErrorKind>, a2: Result<FavoriteAction, ErrorKind>)
    requires s.Valid() && uid in s.users && ValidDocId(newsId)
    modifies s
    ensures s.Valid()
    ensures a1.Ok? && a2.Ok? && a1.value != a2.value
    ensures s.favorites.Keys == old(s.favorites).Keys && s.users == old(s.users)
  {
    ghost var users0, favs0, k := s.users, s.favorites, FavoriteKey(uid, newsId);
    ghost var f1, f2 := Favorite(uid, newsId, d1, t1), Favorite(uid, newsId, d2, t2);
    a1 := ToggleExisting(s, uid, newsId, d1, t1);
    ghost var favs1 := s.favorites;
    assert favs1 == Toggled(favs0, k, f1);
    a2 := ToggleExisting(s, uid, newsId, d2, t2);
    assert s.favorites == Toggled(favs1, k, f2);
    ToggleTwice(favs0, k, f1, f2);
    ToggleFlips(favs0, k, f1);
    UndoCount(users0, uid, ToggleDelta(favs0, k), ToggleDelta(favs1, k));
  }
}
